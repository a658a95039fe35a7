/** The flat number index against the parent links it stands for. */
module TrunkIndex {
  import opened Blocks
  import opened Headers
  import opened ChainStore

  /** Everything stored goes back to one genesis block. */
  predicate RootedStore(store: Store, g: Header) {
    Sound(store) && g.id in store && store[g.id] == g && g.id.num == 0 && g.parent.num == TWO32 - 1 &&
    forall id :: id in store ==> id == g.id || store[id].parent in store
  }

  predicate Anchored(store: Store, g: Header, h: Header) {
    Formed(h) && (h == g || h.parent in store)
  }

  predicate Rooted(c: State, g: Header) {
    Valid(c) && RootedStore(c.store, g) && Anchored(c.store, g, c.best)
  }

  lemma {:induction false} ChainFromGenesis(store: Store, g: Header, h: Header)
    requires RootedStore(store, g) && Anchored(store, g, h)
    ensures |Chain(store, h)| == h.id.num + 1 && Chain(store, h)[0] == g
    decreases h.id.num
  {
    if h == g {
      assert g.parent !in store;
    } else {
      ParentNumber(store, h);
      ChainFromGenesis(store, g, store[h.parent]);
    }
  }

  /** With one genesis, any two heads meet: the fork search cannot fail. */
  lemma RootedMeet(store: Store, g: Header, a: Header, b: Header)
    requires RootedStore(store, g) && Anchored(store, g, a) && Anchored(store, g, b)
    ensures Meet(store, a, b)
  {
    ChainFromGenesis(store, g, a);
    ChainFromGenesis(store, g, b);
    assert Chain(store, a)[0].id == Chain(store, b)[0].id;
  }

  /** An id fixes everything of a block but the signature bytes. */
  predicate Addressed(store: Store, h: Header) {
    h.id in store ==> store[h.id] == h.(sig := store[h.id].sig)
  }

  predicate Plain(c: State, e: Event) {
    FitsEvent(e) && (e.Add? ==> Addressed(c.store, e.h))
  }

  lemma StepRooted(c: State, g: Header, e: Event)
    requires Rooted(c, g) && Plain(c, e)
    ensures Rooted(Step(c, e), g)
    ensures e.Add? ==> Judge(c, e.h, e.escort) != NoFork
  {
    StepValid(c, e);
    if e.Add? && e.h.parent in c.store {
      RootedMeet(c.store, g, e.h, c.best);
    }
  }

  /** Storing one more block leaves every chain as it was. */
  lemma {:induction false} ChainKept(store: Store, g: Header, h: Header, x: Header)
    requires RootedStore(store, g) && Anchored(store, g, x) && Fits(h) && (h.id in store ==> store[h.id] == h)
    ensures Sound(store[h.id := h]) && Chain(store[h.id := h], x) == Chain(store, x)
    decreases x.id.num
  {
    var after := store[h.id := h];
    if x == g {
      assert g.parent !in store && g.parent !in after;
    } else {
      ParentNumber(store, x);
      assert after[x.parent] == store[x.parent];
      ChainKept(store, g, h, store[x.parent]);
    }
  }

  /** A block that was not refused is stored as it came. */
  lemma NotKnownIsSame(c: State, h: Header)
    requires Valid(c) && Fits(h) && !Known(c, h) && Addressed(c.store, h)
    ensures h.id in c.store ==> c.store[h.id] == h
  {
  }

  // ---------- agreement ----------

  function Trunk(c: State): seq<Header>
    requires Valid(c)
  {
    Chain(c.store, c.best)
  }

  /** The index names the chain of `h`, number by number. */
  predicate Names(index: map<nat, Id>, chain: seq<Header>) {
    forall n :: 0 <= n < |chain| ==> n in index && index[n] == chain[n].id
  }

  /** Every number up to the best one is indexed by the best block's ancestor there. */
  predicate Agrees(c: State)
    requires Valid(c)
  {
    Names(c.index, Trunk(c))
  }

  predicate Refused(c: State, e: Event)
    requires Valid(c) && e.Add? && FitsEvent(e)
  {
    Judge(c, e.h, e.escort) in {Exists, ParentMissing}
  }

  lemma BestAfter(c: State, g: Header, e: Event) returns (after: State)
    requires Rooted(c, g) && e.Add? && Plain(c, e) && !Refused(c, e)
    ensures after == Step(c, e) && Valid(after) && after.index == c.index[e.h.id.num := e.h.id]
    ensures e.h.id in c.store ==> c.store[e.h.id] == e.h
    ensures e.h.parent in c.store && (after.store == c.store || after.store == c.store[e.h.id := e.h])
    ensures after.best == if Better(e.h, c.best) then e.h else c.best
  {
    StepRooted(c, g, e);
    NotKnownIsSame(c, e.h);
    after := Step(c, e);
  }

  lemma ChainOfChild(store: Store, g: Header, h: Header)
    requires RootedStore(store, g) && Formed(h) && h.parent in store
    ensures Chain(store, h) == Chain(store, store[h.parent]) + [h]
    ensures |Chain(store, store[h.parent])| == h.id.num
  {
    ParentNumber(store, h);
    var parent := store[h.parent];
    assert Anchored(store, g, parent);
    ChainFromGenesis(store, g, parent);
  }

  lemma TrunkOf(c: State, g: Header, h: Header, after: State) returns (trunk: seq<Header>, parents: seq<Header>)
    requires Rooted(c, g) && Valid(after) && Fits(h) && h.parent in c.store && (h.id in c.store ==> c.store[h.id] == h)
    requires after.store == c.store || after.store == c.store[h.id := h]
    requires after.best == h || after.best == c.best
    ensures trunk == Trunk(c) && parents == Chain(c.store, c.store[h.parent])
    ensures |trunk| == c.best.id.num + 1 && |parents| == h.id.num
    ensures after.best == h ==> Trunk(after) == parents + [h]
    ensures after.best == c.best ==> Trunk(after) == trunk
  {
    trunk, parents := Chain(c.store, c.best), Chain(c.store, c.store[h.parent]);
    ChainFromGenesis(c.store, g, c.best);
    ChainOfChild(c.store, g, h);
    assert Trunk(after) == Chain(c.store, after.best) by {
      ChainKept(c.store, g, h, after.best);
    }
  }

  lemma TrunkAfter(c: State, g: Header, e: Event) returns (trunk: seq<Header>, parents: seq<Header>, after: State)
    requires Rooted(c, g) && e.Add? && Plain(c, e) && !Refused(c, e)
    ensures after == Step(c, e) && Valid(after) && after.index == c.index[e.h.id.num := e.h.id]
    ensures trunk == Trunk(c) && parents == Chain(c.store, c.store[e.h.parent])
    ensures |trunk| == c.best.id.num + 1 && |parents| == e.h.id.num
    ensures Trunk(after) == if Better(e.h, c.best) then parents + [e.h] else trunk
  {
    after := BestAfter(c, g, e);
    trunk, parents := TrunkOf(c, g, e.h, after);
  }

  /** Adding a block keeps the index in agreement exactly when the block becomes best on a parent
      whose whole chain is the indexed one, or stays aside without hitting a number of the trunk. */
  lemma AgreesAfterIff(c: State, g: Header, e: Event)
    requires Rooted(c, g) && Agrees(c) && e.Add? && Plain(c, e) && !Refused(c, e)
    ensures Valid(Step(c, e)) && |Trunk(c)| == c.best.id.num + 1
    ensures Agrees(Step(c, e)) <==>
      if Better(e.h, c.best) then Names(c.index, Chain(c.store, c.store[e.h.parent]))
      else e.h.id.num > c.best.id.num || Trunk(c)[e.h.id.num].id == e.h.id
  {
    var trunk, parents, after := TrunkAfter(c, g, e);
    if Better(e.h, c.best) {
      NamesSnoc(c.index, parents, e.h);
    } else {
      NamesPut(c.index, trunk, e.h.id);
    }
  }

  lemma NamesSnoc(index: map<nat, Id>, chain: seq<Header>, h: Header)
    requires h.id.num == |chain|
    ensures Names(index[h.id.num := h.id], chain + [h]) <==> Names(index, chain)
  {
    var after := index[h.id.num := h.id];
    if Names(after, chain + [h]) {
      forall n | 0 <= n < |chain|
        ensures n in index && index[n] == chain[n].id
      {
        assert n in after && after[n] == (chain + [h])[n].id;
      }
    }
  }

  lemma NamesPut(index: map<nat, Id>, chain: seq<Header>, id: Id)
    requires Names(index, chain)
    ensures Names(index[id.num := id], chain) <==> id.num >= |chain| || chain[id.num].id == id
  {
  }

  lemma StoredOnTrunk(c: State, g: Header, k: nat)
    requires Rooted(c, g) && k < c.best.id.num
    ensures |Trunk(c)| == c.best.id.num + 1 && Trunk(c)[k].id in c.store && c.store[Trunk(c)[k].id] == Trunk(c)[k]
    ensures Trunk(c)[k].id.num == k && Chain(c.store, Trunk(c)[k]) == Trunk(c)[..k + 1]
  {
    ChainFromGenesis(c.store, g, c.best);
    ChainNumbers(c.store, c.best);
    ChainPrefix(c.store, c.best, k);
    ChainParent(c.store, c.best, k + 1);
  }

  /** A parent below the best block is on the index exactly when it is on the trunk. */
  lemma NamedIffOnTrunk(c: State, g: Header, p: Header)
    requires Rooted(c, g) && Agrees(c) && p.id in c.store && c.store[p.id] == p && p.id.num < c.best.id.num
    ensures p.id.num < |Trunk(c)|
    ensures Names(c.index, Chain(c.store, p)) <==> Trunk(c)[p.id.num] == p
  {
    var k := p.id.num;
    StoredOnTrunk(c, g, k);
    var trunk, chain := Trunk(c), Chain(c.store, p);
    assert c.index[k] == trunk[k].id;
    ChainFromGenesis(c.store, g, p);
    assert chain[k] == p;
    NamedAt(c.index, trunk, chain, k);
  }

  lemma NamedAt(index: map<nat, Id>, trunk: seq<Header>, chain: seq<Header>, k: nat)
    requires Names(index, trunk) && k < |trunk| && |chain| == k + 1
    ensures Names(index, chain) ==> chain[k].id == trunk[k].id
    ensures chain == trunk[..k + 1] ==> Names(index, chain)
  {
    if Names(index, chain) {
      assert index[k] == chain[k].id && index[k] == trunk[k].id;
    }
    if chain == trunk[..k + 1] {
      forall n | 0 <= n < |chain|
        ensures n in index && index[n] == chain[n].id
      {
        assert chain[n] == trunk[n];
      }
    }
  }

  /** Agreement can be lost: a block that loses the fork choice still takes over its number. */
  lemma SideBlockTakesNumber() returns (c: State, g: Header, e: Event)
    ensures Rooted(c, g) && Agrees(c) && e.Add? && Plain(c, e)
    ensures Judge(c, e.h, e.escort) == Aside
    ensures Valid(Step(c, e)) && Step(c, e).best == c.best && !Agrees(Step(c, e))
  {
    g := Header(Id(0, 0), Id(TWO32 - 1, 0), 0, 0, 0);
    var a := Header(Id(1, 1), g.id, 1, 0, 0);
    var store := map[g.id := g, a.id := a];
    c := State(store, a, 0, map[0 := g.id, 1 := a.id], map[]);
    e := Add(Header(Id(1, 2), g.id, 1, 0, 0), Some(0), {});
    assert Chain(store, g) == [g];
    assert Chain(store, a) == [g, a];
    AgreesAfterIff(c, g, e);
  }

  // ---------- runs that only extend the best block ----------

  predicate ExtendsBest(c: State, e: Event) {
    e.Add? ==> e.h.parent == c.best.id
  }

  predicate Straight(c: State, es: seq<Event>)
    requires Valid(c) && AllFit(es)
  {
    es == [] || (Straight(c, es[..|es| - 1]) && Plain(Run(c, es[..|es| - 1]), es[|es| - 1]) &&
                 ExtendsBest(Run(c, es[..|es| - 1]), es[|es| - 1]))
  }

  /** The best block is stored under its id whenever its id is. */
  predicate BestIsStored(c: State) {
    c.best.id in c.store ==> c.store[c.best.id] == c.best
  }

  lemma StraightAddAgrees(c: State, g: Header, e: Event)
    requires Rooted(c, g) && Agrees(c) && BestIsStored(c) && Plain(c, e) && ExtendsBest(c, e) && e.Add? && !Refused(c, e)
    ensures Valid(Step(c, e)) && Agrees(Step(c, e)) && Trunk(c) <= Trunk(Step(c, e))
  {
    var trunk, parents, after := TrunkAfter(c, g, e);
    assert parents == trunk;
    AgreesAfterIff(c, g, e);
  }

  lemma StraightAddStored(c: State, g: Header, e: Event)
    requires Rooted(c, g) && BestIsStored(c) && Plain(c, e) && ExtendsBest(c, e) && e.Add? && !Refused(c, e)
    ensures BestIsStored(Step(c, e))
  {
    var after := BestAfter(c, g, e);
    assert e.h.id != c.best.id;
  }

  lemma StraightStepAgrees(c: State, g: Header, e: Event)
    requires Rooted(c, g) && Agrees(c) && BestIsStored(c) && Plain(c, e) && ExtendsBest(c, e)
    ensures Rooted(Step(c, e), g) && Agrees(Step(c, e)) && BestIsStored(Step(c, e))
    ensures Trunk(c) <= Trunk(Step(c, e))
  {
    StepRooted(c, g, e);
    if e.Add? && !Refused(c, e) {
      StraightAddAgrees(c, g, e);
      StraightAddStored(c, g, e);
    }
  }

  /** In every run whose blocks each extend the best one, and under any cache eviction, looking up
      a number up to the best one gives the best block's ancestor there, and the trunk only grows. */
  lemma {:induction false} StraightRunAgrees(c: State, g: Header, es: seq<Event>)
    requires Rooted(c, g) && Agrees(c) && BestIsStored(c) && AllFit(es) && Straight(c, es)
    ensures var r := Run(c, es);
      Rooted(r, g) && Agrees(r) && BestIsStored(r) && Trunk(c) <= Trunk(r) &&
      |Trunk(r)| == r.best.id.num + 1 &&
      forall n :: 0 <= n <= r.best.id.num ==> Lookup(r, n) == Some(Trunk(r)[n].id)
  {
    if es != [] {
      StraightRunAgrees(c, g, es[..|es| - 1]);
      StraightStepAgrees(Run(c, es[..|es| - 1]), g, es[|es| - 1]);
    }
    ChainFromGenesis(Run(c, es).store, g, Run(c, es).best);
  }

  lemma OpenedAgrees(g: Header, qc: nat)
    requires Fits(g) && g.id.num == 0
    ensures var c := Opened(g, qc); Rooted(c, g) && Agrees(c) && BestIsStored(c) && Trunk(c) == [g]
  {
    assert g.parent.num == TWO32 - 1;
    assert Chain(map[g.id := g], g) == [g];
  }

  /** From an empty database on: as long as every block extends the best one, the index is the
      trunk, whatever the cache drops. */
  lemma IndexIsTrunk(g: Header, qc: nat, es: seq<Event>, n: nat)
    requires Fits(g) && g.id.num == 0 && AllFit(es)
    requires Valid(Opened(g, qc)) && Straight(Opened(g, qc), es) && n <= Run(Opened(g, qc), es).best.id.num
    ensures var r := Run(Opened(g, qc), es);
      n < |Trunk(r)| && Trunk(r)[0] == g && Lookup(r, n) == Some(Trunk(r)[n].id)
  {
    OpenedAgrees(g, qc);
    StraightRunAgrees(Opened(g, qc), g, es);
  }
}
