/** A cache with priorities: a map and a heap slice over the same entries, each entry knowing its
    slot. Over its limit it drops an entry of lowest priority. */
module PrioCache {
  import opened Blocks

  // ---------- heap order over priorities ----------

  function Parent(k: int): int {
    (k - 1) / 2
  }

  /** Slot `k` is not below its parent. */
  predicate Above(p: seq<real>, k: int)
    requires 0 < k < |p|
  {
    p[Parent(k)] <= p[k]
  }

  predicate Ordered(p: seq<real>, n: int)
    requires n <= |p|
  {
    forall k :: 0 < k < n ==> Above(p, k)
  }

  /** The children of slot `h` are not below its parent. */
  predicate Bridged(p: seq<real>, h: int, n: int)
    requires 0 <= h < n <= |p|
  {
    forall k :: 0 < k < n && Parent(k) == h && 0 < h ==> p[Parent(h)] <= p[k]
  }

  /** In order, except that slot `h` may be below its parent. */
  predicate OrderedBut(p: seq<real>, h: int, n: int)
    requires 0 <= h < n <= |p|
  {
    (forall k :: 0 < k < n && k != h ==> Above(p, k)) && Bridged(p, h, n)
  }

  /** In order, except around slot `h`. */
  predicate Loose(p: seq<real>, h: int, n: int)
    requires 0 <= h < n <= |p|
  {
    (forall k :: 0 < k < n && k != h && Parent(k) != h ==> Above(p, k)) && Bridged(p, h, n)
  }

  function Swapped<T>(s: seq<T>, i: int, j: int): (t: seq<T>)
    requires 0 <= i < |s| && 0 <= j < |s|
    ensures |t| == |s| && t[i] == s[j] && t[j] == s[i] && forall k :: 0 <= k < |s| && k != i && k != j ==> t[k] == s[k]
  {
    s[i := s[j]][j := s[i]]
  }

  lemma RaiseStep(p: seq<real>, j: int, n: int)
    requires 0 < j < n <= |p| && OrderedBut(p, j, n) && p[j] < p[Parent(j)]
    ensures OrderedBut(Swapped(p, Parent(j), j), Parent(j), n)
  {
    var i := Parent(j);
    var q := Swapped(p, i, j);
    forall k | 0 < k < n && k != i
      ensures Above(q, k)
    {
      if k != j {
        assert Above(p, k);
      }
    }
    forall k | 0 < k < n && Parent(k) == i && 0 < i
      ensures q[Parent(i)] <= q[k]
    {
      assert Above(p, i);
      if k != j {
        assert Above(p, k);
      }
    }
  }

  /** `j` is a child of `i` no other child of which is smaller. */
  predicate SmallerChild(p: seq<real>, i: int, j: int, n: int)
    requires 0 <= i && n <= |p|
  {
    0 < j < n && Parent(j) == i && forall k :: 0 < k < n && Parent(k) == i ==> p[j] <= p[k]
  }

  predicate Childless(i: int, n: int) {
    forall k :: 0 < k < n ==> Parent(k) != i
  }

  /** Slot `i` has its children at `2i + 1` and `2i + 2`. */
  lemma Children(p: seq<real>, i: int, n: int)
    requires 0 <= i < n <= |p|
    ensures 2 * i + 1 >= n ==> Childless(i, n)
    ensures 2 * i + 1 < n ==>
      SmallerChild(p, i, if 2 * i + 2 < n && p[2 * i + 2] < p[2 * i + 1] then 2 * i + 2 else 2 * i + 1, n)
  {
  }

  lemma LowerStep(p: seq<real>, i: int, j: int, n: int)
    requires 0 <= i < n <= |p| && Loose(p, i, n) && SmallerChild(p, i, j, n) && p[j] < p[i]
    ensures Loose(Swapped(p, i, j), j, n) && Above(Swapped(p, i, j), j)
    ensures 0 < i ==> Above(Swapped(p, i, j), i)
  {
    var q := Swapped(p, i, j);
    forall k | 0 < k < n && k != j && Parent(k) != j
      ensures Above(q, k)
    {
      if k != i && Parent(k) != i {
        assert Above(p, k);
      }
    }
    forall k | 0 < k < n && Parent(k) == j
      ensures q[Parent(j)] <= q[k]
    {
      assert Above(p, k);
    }
  }

  lemma LowerDone(p: seq<real>, i: int, j: int, n: int)
    requires 0 <= i < n <= |p| && Loose(p, i, n)
    requires Childless(i, n) || (SmallerChild(p, i, j, n) && p[i] <= p[j])
    ensures OrderedBut(p, i, n)
    ensures (i == 0 || Above(p, i)) ==> Ordered(p, n)
  {
    forall k | 0 < k < n && k != i
      ensures Above(p, k)
    {
    }
  }

  /** The root has the lowest priority. */
  lemma {:induction false} RootIsLowest(p: seq<real>, k: int)
    requires 0 <= k < |p| && Ordered(p, |p|)
    ensures p[0] <= p[k]
    decreases k
  {
    if k > 0 {
      assert Above(p, k);
      RootIsLowest(p, Parent(k));
    }
  }

  // ---------- entries and their heap ----------

  class Entry {
    const key: int
    var value: int
    var prio: real
    var index: int

    constructor (key: int, value: int, prio: real)
      ensures this.key == key && this.value == value && this.prio == prio && this.index == 0
    {
      this.key, this.value, this.prio, this.index := key, value, prio, 0;
    }
  }

  ghost predicate Indexed(s: seq<Entry>)
    reads s
  {
    forall i :: 0 <= i < |s| ==> s[i].index == i
  }

  ghost function Prios(s: seq<Entry>): (p: seq<real>)
    reads s
    ensures |p| == |s| && forall k :: 0 <= k < |s| ==> p[k] == s[k].prio
  {
    seq(|s|, k requires 0 <= k < |s| reads s => s[k].prio)
  }

  /** Rearranged, with nothing gained or lost. */
  ghost predicate Shuffled(s: seq<Entry>, t: seq<Entry>) {
    |s| == |t| && (forall e :: e in s ==> e in t) && (forall e :: e in t ==> e in s)
  }

  ghost predicate SameFrom(s: seq<Entry>, t: seq<Entry>, n: int)
    requires |s| == |t| && 0 <= n
  {
    forall k :: n <= k < |s| ==> s[k] == t[k]
  }

  ghost predicate Gained(s: seq<Entry>, t: seq<Entry>, e: Entry) {
    |s| == |t| + 1 && e in s && (forall x :: x in s ==> x in t || x == e) && (forall x :: x in t ==> x in s)
  }

  ghost predicate Lost(s: seq<Entry>, t: seq<Entry>, e: Entry) {
    |s| + 1 == |t| && e in t && e !in s && (forall x :: x in s ==> x in t) && (forall x :: x in t ==> x in s || x == e)
  }

  lemma AppendLoose(p: seq<real>, q: seq<real>)
    requires Ordered(p, |p|) && |q| == |p| + 1 && q[..|p|] == p
    ensures OrderedBut(q, |p|, |q|)
  {
    forall k | 0 < k < |q| && k != |p|
      ensures Above(q, k)
    {
      assert Above(p, k) && q[k] == p[k] && q[Parent(k)] == p[Parent(k)];
    }
  }

  lemma ChangedLoose(p: seq<real>, i: int, prio: real)
    requires Ordered(p, |p|) && 0 <= i < |p|
    ensures Loose(p[i := prio], i, |p|)
  {
    var q := p[i := prio];
    forall k | 0 < k < |p| && k != i && Parent(k) != i
      ensures Above(q, k)
    {
      assert Above(p, k);
    }
    forall k | 0 < k < |p| && Parent(k) == i && 0 < i
      ensures q[Parent(i)] <= q[k]
    {
      assert Above(p, k) && Above(p, i);
    }
  }

  /** Moving the last slot to `i` leaves the rest in order around `i`. */
  lemma LastToLoose(p: seq<real>, i: int)
    requires Ordered(p, |p|) && 0 <= i < |p| - 1
    ensures Loose(Swapped(p, i, |p| - 1), i, |p| - 1)
  {
    var n := |p| - 1;
    var q := Swapped(p, i, n);
    forall k | 0 < k < n && k != i && Parent(k) != i
      ensures Above(q, k)
    {
      assert Above(p, k);
    }
    forall k | 0 < k < n && Parent(k) == i && 0 < i
      ensures q[Parent(i)] <= q[k]
    {
      assert Above(p, k) && Above(p, i);
    }
  }

  lemma OrderedPrefix(p: seq<real>, n: int)
    requires 0 <= n <= |p| && Ordered(p, n)
    ensures Ordered(p[..n], n)
  {
    forall k | 0 < k < n
      ensures Above(p[..n], k)
    {
      assert Above(p, k);
    }
  }

  lemma LostLast(t: seq<Entry>, before: seq<Entry>, s: seq<Entry>, e: Entry)
    requires Shuffled(before, t) && before == s + [e] && e !in s
    ensures Lost(s, t, e)
  {
    forall x | x in s
      ensures x in t
    {
      assert x in before;
    }
    assert before[|s|] == e;
  }

  /** The heap slice. */
  class Heap {
    var s: seq<Entry>

    constructor ()
      ensures s == []
    {
      s := [];
    }

    method Swap(i: int, j: int)
      requires Indexed(s) && 0 <= i < |s| && 0 <= j < |s|
      modifies this, {s[i], s[j]}`index
      ensures Indexed(s) && s == Swapped(old(s), i, j) && Shuffled(s, old(s))
      ensures Prios(s) == Swapped(old(Prios(s)), i, j)
    {
      s[i].index := j;
      s[j].index := i;
      s := Swapped(s, i, j);
    }

    /** Raise slot `start` until it is not below its parent. */
    method Up(start: int, ghost n: int)
      requires Indexed(s) && 0 <= start < n <= |s| && OrderedBut(Prios(s), start, n)
      modifies this, s`index
      ensures Indexed(s) && Shuffled(s, old(s)) && Ordered(Prios(s), n) && SameFrom(s, old(s), n)
    {
      var j := start;
      while true
        invariant Indexed(s) && Shuffled(s, old(s)) && 0 <= j < n && SameFrom(s, old(s), n)
        invariant OrderedBut(Prios(s), j, n)
        decreases j
      {
        var i := if j == 0 then 0 else Parent(j);
        if i == j || !(s[j].prio < s[i].prio) {
          break;
        }
        RaiseStep(Prios(s), j, n);
        assert s[i] in old(s) && s[j] in old(s);
        Swap(i, j);
        j := i;
      }
    }

    /** The smaller child of slot `i`, or a slot past `n` when there is none. */
    method LowerChild(i: int, n: int) returns (j: int)
      requires 0 <= i < n <= |s|
      ensures i < j
      ensures j < n ==> SmallerChild(Prios(s), i, j, n)
      ensures j >= n ==> Childless(i, n)
    {
      var j1 := 2 * i + 1;
      Children(Prios(s), i, n);
      j := j1;
      if j1 + 1 < n && s[j1 + 1].prio < s[j1].prio {
        j := j1 + 1;
      }
    }

    /** Lower slot `i` by one level, below its smaller child, unless it is in order there. */
    method LowerOnce(i: int, n: int, ghost all: seq<Entry>) returns (j: int)
      requires Indexed(s) && 0 <= i < n <= |s| && Loose(Prios(s), i, n) && Shuffled(s, all)
      modifies this, all`index
      ensures Indexed(s) && Shuffled(s, all) && SameFrom(s, old(s), n)
      ensures j == i ==> s == old(s) && OrderedBut(Prios(s), i, n) && (i == 0 || Above(Prios(s), i) ==> Ordered(Prios(s), n))
      ensures j != i ==> i < j < n && Loose(Prios(s), j, n) && Above(Prios(s), j)
    {
      j := LowerChild(i, n);
      if j >= n || !(s[j].prio < s[i].prio) {
        LowerDone(Prios(s), i, j, n);
        j := i;
      } else {
        LowerStep(Prios(s), i, j, n);
        assert s[i] in all && s[j] in all;
        Swap(i, j);
      }
    }

    /** Lower slot `start` below its smaller child as far as needed within the first `n` slots. When
        it does not move, only its place under its parent may still be wrong. */
    method Down(start: int, n: int) returns (moved: bool)
      requires Indexed(s) && 0 <= start < n <= |s| && Loose(Prios(s), start, n)
      modifies this, s`index
      ensures Indexed(s) && Shuffled(s, old(s)) && SameFrom(s, old(s), n)
      ensures moved || start == 0 ==> Ordered(Prios(s), n)
      ensures !moved ==> s == old(s) && OrderedBut(Prios(s), start, n)
    {
      var i := start;
      ghost var all := s;
      while true
        invariant Indexed(s) && Shuffled(s, all) && start <= i < n && SameFrom(s, all, n)
        invariant Loose(Prios(s), i, n) && (i > start ==> Above(Prios(s), i))
        invariant i == start ==> s == all
        decreases n - i
      {
        var j := LowerOnce(i, n, all);
        if j == i {
          break;
        }
        i := j;
      }
      moved := i > start;
    }

    /** Restore the order after the priority at slot `i` has changed. */
    method Fix(i: int)
      requires Indexed(s) && 0 <= i < |s| && Loose(Prios(s), i, |s|)
      modifies this, s`index
      ensures Indexed(s) && Shuffled(s, old(s)) && Ordered(Prios(s), |s|)
    {
      var moved := Down(i, |s|);
      if !moved {
        Up(i, |s|);
      }
    }

    method Push(e: Entry)
      requires Indexed(s) && Ordered(Prios(s), |s|) && e !in s
      modifies this, s`index, e`index
      ensures Indexed(s) && Ordered(Prios(s), |s|) && Gained(s, old(s), e)
    {
      e.index := |s|;
      s := s + [e];
      AppendLoose(old(Prios(s)), Prios(s));
      Up(|s| - 1, |s|);
    }

    /** Drop the last slot. */
    method Chop() returns (e: Entry)
      requires Indexed(s) && s != []
      modifies this, {s[|s| - 1]}`index
      ensures Indexed(s) && e == old(s)[|old(s)| - 1] && s == old(s)[..|old(s)| - 1] && e !in s && e.index == -1
      ensures Prios(s) == old(Prios(s))[..|old(s)| - 1]
    {
      var n := |s|;
      e := s[n - 1];
      assert forall k :: 0 <= k < n - 1 ==> s[k].index != e.index;
      e.index := -1;
      s := s[..n - 1];
    }

    /** Bring slot `i` to the end and put the others back in order. */
    method SinkLast(i: int)
      requires Indexed(s) && 0 <= i < |s| && Ordered(Prios(s), |s|)
      modifies this, s`index
      ensures Indexed(s) && Shuffled(s, old(s)) && s[|s| - 1] == old(s)[i] && Ordered(Prios(s), |s| - 1)
    {
      var n := |s| - 1;
      if n != i {
        LastToLoose(Prios(s), i);
        Swap(i, n);
        var moved := Down(i, n);
        if !moved {
          Up(i, n);
        }
      }
    }

    /** Drop the last slot of a heap whose other slots are in order. */
    method ChopOrdered(ghost all: seq<Entry>) returns (e: Entry)
      requires Indexed(s) && s != [] && Ordered(Prios(s), |s| - 1) && Shuffled(s, all)
      modifies this, all`index
      ensures Indexed(s) && Ordered(Prios(s), |s|) && Lost(s, all, e) && e == old(s)[|old(s)| - 1] && e.index == -1
    {
      ghost var before, prios := s, Prios(s);
      assert s[|s| - 1] in all;
      e := Chop();
      OrderedPrefix(prios, |s|);
      LostLast(all, before, s, e);
    }

    /** Take slot `i` out: the last slot moves there and sinks or rises. */
    method TakeOut(i: int) returns (e: Entry)
      requires Indexed(s) && 0 <= i < |s| && Ordered(Prios(s), |s|)
      modifies this, s`index
      ensures Indexed(s) && Ordered(Prios(s), |s|) && Lost(s, old(s), e) && e == old(s)[i] && e.index == -1
    {
      ghost var all := s;
      SinkLast(i);
      e := ChopOrdered(all);
    }

    /** Take the root out. */
    method Pop() returns (e: Entry)
      requires Indexed(s) && s != [] && Ordered(Prios(s), |s|)
      modifies this, s`index
      ensures Indexed(s) && Ordered(Prios(s), |s|) && Lost(s, old(s), e) && e == old(s)[0] && e.index == -1
    {
      ghost var all := s;
      var n := |s| - 1;
      if n != 0 {
        LastToLoose(Prios(s), 0);
        Swap(0, n);
        var _ := Down(0, n);
      }
      e := ChopOrdered(all);
    }
  }

  // ---------- the cache ----------

  /** Map and slice hold the same entries. */
  ghost predicate Keyed(m: map<int, Entry>, s: seq<Entry>) {
    (forall e :: e in s ==> e.key in m && m[e.key] == e) && (forall k :: k in m ==> m[k] in s && m[k].key == k)
  }

  lemma KeyedGain(m: map<int, Entry>, s: seq<Entry>, t: seq<Entry>, e: Entry)
    requires Keyed(m, s) && Gained(t, s, e) && e.key !in m
    ensures Keyed(m[e.key := e], t)
  {
  }

  lemma KeyedLoss(m: map<int, Entry>, s: seq<Entry>, t: seq<Entry>, e: Entry)
    requires Keyed(m, s) && Lost(t, s, e)
    ensures Keyed(m - {e.key}, t)
  {
  }

  lemma {:induction false} CountDistinct(ks: seq<int>)
    requires forall i, j :: 0 <= i < j < |ks| ==> ks[i] != ks[j]
    ensures |set k | k in ks| == |ks|
  {
    if ks != [] {
      var init, last := ks[..|ks| - 1], ks[|ks| - 1];
      CountDistinct(init);
      assert ks == init + [last];
      assert (set k | k in ks) == (set k | k in init) + {last};
    }
  }

  lemma SameSize(m: map<int, Entry>, s: seq<Entry>)
    requires Keyed(m, s) && forall i, j :: 0 <= i < j < |s| ==> s[i] != s[j]
    ensures |m| == |s|
  {
    var ks := seq(|s|, i requires 0 <= i < |s| => s[i].key);
    forall i, j | 0 <= i < j < |s|
      ensures ks[i] != ks[j]
    {
      assert s[i] in s && s[j] in s;
    }
    CountDistinct(ks);
    forall k | k in m
      ensures k in ks
    {
      var i :| 0 <= i < |s| && s[i] == m[k];
      assert ks[i] == k;
    }
    forall k | k in ks
      ensures k in m
    {
      var i :| 0 <= i < |s| && ks[i] == k;
      assert s[i] in s;
    }
    assert m.Keys == set k | k in ks;
  }

  /** The entry an overflow drops has the lowest priority of all, the new one included. */
  ghost predicate DropsLowest(grown: map<int, (int, real)>, after: map<int, (int, real)>) {
    exists k :: k in grown && after == grown - {k} && forall j :: j in grown ==> grown[k].1 <= grown[j].1
  }

  class Cache {
    var m: map<int, Entry>
    const heap: Heap
    const limit: nat

    ghost predicate Valid()
      reads this, heap, heap.s
    {
      limit >= 1 && |heap.s| <= limit && Sorted()
    }

    ghost predicate Sorted()
      reads this, heap, heap.s
    {
      Indexed(heap.s) && Ordered(Prios(heap.s), |heap.s|) && Keyed(m, heap.s)
    }

    ghost function Contents(): map<int, (int, real)>
      requires Keyed(m, heap.s)
      reads this, heap, heap.s
    {
      map k | k in m :: (m[k].value, m[k].prio)
    }

    /** The slice's length is the number of keys. */
    lemma CountsKeys()
      requires Sorted()
      ensures |m| == |heap.s|
    {
      SameSize(m, heap.s);
    }

    constructor (limit: nat)
      requires limit >= 1
      ensures Valid() && fresh(heap) && this.limit == limit && Contents() == map[]
    {
      m, this.limit := map[], limit;
      heap := new Heap();
    }

    method Get(key: int) returns (r: Option<(int, real)>)
      requires Valid()
      ensures r == if key in Contents() then Some(Contents()[key]) else None
    {
      if key in m {
        return Some((m[key].value, m[key].prio));
      }
      return None;
    }

    /** Put an entry whose priority has changed back in order. */
    method Resettle(e: Entry, ghost before: seq<real>)
      requires e in heap.s && Indexed(heap.s) && Keyed(m, heap.s) && 0 <= e.index < |heap.s| == |before|
      requires Ordered(before, |before|) && Prios(heap.s) == before[e.index := e.prio]
      modifies heap, heap.s`index
      ensures Sorted() && Shuffled(heap.s, old(heap.s))
    {
      ChangedLoose(before, e.index, e.prio);
      heap.Fix(e.index);
    }

    /** Write an entry that is there already. */
    method Rewrite(key: int, value: int, prio: real)
      requires Valid() && key in m
      modifies heap, heap.s
      ensures Valid() && Shuffled(heap.s, old(heap.s))
      ensures Contents() == old(Contents())[key := (value, prio)]
    {
      var e := m[key];
      assert heap.s[e.index] == e;
      assert forall k :: k in m && k != key ==> m[k] != e;
      ghost var before := Prios(heap.s);
      e.value := value;
      e.prio := prio;
      assert Prios(heap.s) == before[e.index := prio];
      Resettle(e, before);
    }

    method Attach(e: Entry)
      requires Sorted() && e.key !in m && e !in heap.s
      modifies this`m, heap, heap.s`index, e`index
      ensures Sorted() && m == old(m)[e.key := e] && Gained(heap.s, old(heap.s), e)
    {
      ghost var before := heap.s;
      heap.Push(e);
      KeyedGain(m, before, heap.s, e);
      m := m[e.key := e];
    }

    method Detach(key: int) returns (e: Entry)
      requires Sorted() && key in m
      modifies this`m, heap, heap.s`index
      ensures Sorted() && e == old(m)[key] && m == old(m) - {key} && Lost(heap.s, old(heap.s), e)
    {
      e := m[key];
      ghost var before := heap.s;
      assert heap.s[e.index] == e;
      var _ := heap.TakeOut(e.index);
      KeyedLoss(m, before, heap.s, e);
      m := m - {key};
    }

    method Insert(key: int, value: int, prio: real) returns (e: Entry)
      requires Valid() && key !in m
      modifies this`m, heap, heap.s`index
      ensures Sorted() && fresh(e) && Gained(heap.s, old(heap.s), e)
      ensures Contents() == old(Contents())[key := (value, prio)]
    {
      ghost var before, full := m, Contents();
      e := new Entry(key, value, prio);
      Attach(e);
      forall k | k in before
        ensures m[k] == before[k] && full[k] == (m[k].value, m[k].prio)
      {
        assert m[k] in old(heap.s);
      }
      assert Contents() == full[key := (value, prio)];
    }

    lemma RootOfAll(k: int)
      requires Sorted() && k in m
      ensures heap.s != [] && heap.s[0].prio <= m[k].prio
    {
      var j :| 0 <= j < |heap.s| && heap.s[j] == m[k];
      RootIsLowest(Prios(heap.s), j);
    }

    method DetachRoot(ghost all: set<Entry>) returns (e: Entry)
      requires Sorted() && heap.s != [] && forall e :: e in heap.s ==> e in all
      modifies this`m, heap, all`index
      ensures Sorted() && e == old(heap.s)[0] && m == old(m) - {e.key} && Lost(heap.s, old(heap.s), e)
    {
      ghost var before := heap.s;
      e := heap.Pop();
      KeyedLoss(m, before, heap.s, e);
      m := m - {e.key};
    }

    method PopLowest(ghost all: set<Entry>)
      requires Sorted() && forall e :: e in heap.s ==> e in all
      modifies this`m, heap, all`index
      ensures Sorted() && (forall e :: e in heap.s ==> e in old(heap.s))
      ensures old(heap.s) == [] ==> heap.s == [] && Contents() == old(Contents())
      ensures old(heap.s) != [] ==> |heap.s| + 1 == |old(heap.s)| && DropsLowest(old(Contents()), Contents())
    {
      if |heap.s| == 0 {
        return;
      }
      ghost var before, full := heap.s, Contents();
      forall k | k in m
        ensures before[0].prio <= full[k].1
      {
        RootOfAll(k);
      }
      assert before[0] in before && full[before[0].key].1 == before[0].prio;
      var e := DetachRoot(all);
      assert Contents() == full - {e.key};
    }

    method Set(key: int, value: int, prio: real)
      requires Valid()
      modifies this, heap, heap.s
      ensures Valid() && forall e :: e in heap.s ==> e in old(heap.s) || fresh(e)
      ensures var grown := old(Contents())[key := (value, prio)];
        if key in old(m) || |old(heap.s)| < limit then Contents() == grown else DropsLowest(grown, Contents())
    {
      if key in m {
        Rewrite(key, value, prio);
        return;
      }
      var e := Insert(key, value, prio);
      if |heap.s| > limit {
        PopLowest((set x | x in old(heap.s)) + {e});
      }
    }

    method Remove(key: int) returns (r: Option<(int, real)>)
      requires Valid()
      modifies this, heap, heap.s
      ensures Valid() && forall e :: e in heap.s ==> e in old(heap.s)
      ensures Contents() == old(Contents()) - {key}
      ensures r == if key in old(m) then Some(old(Contents())[key]) else None
    {
      if key !in m {
        assert Contents() - {key} == Contents();
        return None;
      }
      ghost var full := Contents();
      var e := Detach(key);
      assert Contents() == full - {key};
      return Some((e.value, e.prio));
    }
  }
}
