/** The chain object and its readers, updated in place and proved against ChainStore and
    BlockReader. */
module BlockChain {
  import opened Blocks
  import opened Headers
  import ChainStore
  import BlockReader

  class Chain {
    var store: Store
    var best: Header
    var bestQC: nat
    var index: map<nat, Id>
    var cache: map<nat, Id>

    ghost function View(): ChainStore.State
      reads this
    {
      ChainStore.State(store, best, bestQC, index, cache)
    }

    ghost predicate Valid()
      reads this
    {
      ChainStore.Valid(View())
    }

    constructor (genesis: Header, qc: nat)
      requires ChainStore.Fits(genesis) && genesis.id.num == 0
      ensures Valid() && View() == ChainStore.Opened(genesis, qc)
    {
      store, best, bestQC := map[genesis.id := genesis], genesis, qc;
      index, cache := map[0 := genesis.id], map[0 := genesis.id];
    }

    method Put(num: nat, id: Id, evicted: set<nat>)
      modifies this`index, this`cache
      ensures index == old(index)[num := id] && cache == old(cache)[num := id] - evicted
    {
      cache := cache[num := id] - evicted;
      index := index[num := id];
    }

    method IsKnown(h: Header) returns (known: bool)
      ensures known == ChainStore.Known(View(), h)
    {
      if h.id !in store {
        return false;
      }
      var saved := store[h.id];
      if saved.parent == h.parent && saved.sig == h.sig && saved.rest == h.rest && saved.parent.num <= best.id.num {
        return h.id.num <= best.id.num;
      }
      return true;
    }

    /** The fork choice: the block becomes best when it is better, shares an ancestor with the best
        one and brings a certificate. Without a certificate it is best all the same. */
    method Choose(h: Header, escort: Option<nat>) returns (verdict: ChainStore.Verdict, fork: Option<Fork>)
      requires Sound(store) && Formed(h) && Formed(best) && h.parent in store
      modifies this`best, this`bestQC
      ensures verdict ==
        if !ChainStore.Better(h, old(best)) then ChainStore.Aside
        else if !Meet(store, h, old(best)) then ChainStore.NoFork
        else if escort.None? then ChainStore.NoEscort
        else ChainStore.NewBest
      ensures best == if verdict in {ChainStore.NoEscort, ChainStore.NewBest} then h else old(best)
      ensures bestQC == if verdict == ChainStore.NewBest then escort.value else old(bestQC)
      ensures fork.Some? <==> verdict in {ChainStore.NewBest, ChainStore.Aside}
      ensures verdict == ChainStore.NewBest ==> IsFork(store, h, old(best), fork.value)
      ensures verdict == ChainStore.Aside ==> fork.value == Fork(store[h.parent], [], [h])
    {
      if !ChainStore.Better(h, best) {
        return ChainStore.Aside, Some(Fork(store[h.parent], [], [h]));
      }
      fork := BuildFork(store, h, best);
      if fork.None? {
        return ChainStore.NoFork, None;
      }
      best := h;
      if escort.None? {
        return ChainStore.NoEscort, None;
      }
      bestQC := escort.value;
      verdict := ChainStore.NewBest;
    }

    /** The whole of AddBlock, with the fork it reports. */
    method AddBlock(h: Header, escort: Option<nat>, evicted: set<nat>)
      returns (verdict: ChainStore.Verdict, fork: Option<Fork>)
      requires Valid() && ChainStore.Fits(h)
      modifies this
      ensures Valid()
      ensures verdict == ChainStore.Judge(old(View()), h, escort)
      ensures View() == ChainStore.AddBlock(old(View()), h, escort, evicted)
      ensures fork.Some? <==> verdict in {ChainStore.NewBest, ChainStore.Aside}
      ensures verdict == ChainStore.NewBest ==> IsFork(old(store), h, old(best), fork.value)
      ensures verdict == ChainStore.Aside ==> fork.value == Fork(old(store)[h.parent], [], [h])
    {
      ChainStore.StepValid(View(), ChainStore.Add(h, escort, evicted));
      var known := IsKnown(h);
      if known {
        return ChainStore.Exists, None;
      }
      if h.parent !in store {
        return ChainStore.ParentMissing, None;
      }
      Put(h.id.num, h.id, evicted);
      verdict, fork := Choose(h, escort);
      if fork.Some? {
        store := store[h.id := h];
      }
    }

    /** From the cache, or from the index through the cache. */
    method GetAncestor(n: nat, evicted: set<nat>) returns (r: Option<Id>)
      requires Valid()
      modifies this`cache
      ensures Valid()
      ensures View() == ChainStore.Touch(old(View()), n, evicted)
      ensures r == ChainStore.Lookup(old(View()), n)
      ensures r == if n in index then Some(index[n]) else None
    {
      if n in cache {
        return Some(cache[n]);
      }
      if n !in index {
        return None;
      }
      var id := index[n];
      cache := cache[n := id] - evicted;
      return Some(id);
    }
  }

  class Reader {
    const chain: Chain
    var position: Id

    constructor (chain: Chain, position: Id)
      ensures this.chain == chain && this.position == position
    {
      this.chain, this.position := chain, position;
    }

    method NextBlock(num: nat, evicted: set<nat>) returns (r: Option<Header>)
      requires chain.Valid()
      modifies chain`cache
      ensures chain.Valid()
      ensures r ==
        if num + 1 in chain.index && chain.index[num + 1] in chain.store then Some(chain.store[chain.index[num + 1]])
        else None
    {
      var next := chain.GetAncestor(num + 1, evicted);
      if next.None? || next.value !in chain.store {
        return None;
      }
      return Some(chain.store[next.value]);
    }

    /** Only the position and the chain's cache move. */
    method Read(evicted: set<nat>) returns (blocks: seq<(Header, bool)>, failed: bool)
      requires chain.Valid()
      modifies this`position, chain`cache
      ensures chain.Valid()
      ensures BlockReader.Reading(blocks, position, failed) == BlockReader.Read(old(chain.View()), old(position))
    {
      if chain.best.id == position {
        return [], false;
      }
      blocks := [];
      ghost var store, bestNum, index := chain.store, chain.best.id.num, chain.index;
      ghost var start := BlockReader.ReadFrom(store, bestNum, index, position, []);
      while true
        invariant chain.Valid() && chain.store == store && chain.best.id.num == bestNum && chain.index == index
        invariant BlockReader.ReadFrom(store, bestNum, index, position, blocks) == start
        decreases BlockReader.Height(store, position)
      {
        if position !in chain.store {
          return [], true;
        }
        var here := chain.store[position];
        if position.num <= chain.best.id.num {
          var ancestor := chain.GetAncestor(position.num, evicted);
          if ancestor.None? {
            return [], true;
          }
          if ancestor.value == position {
            var next := NextBlock(position.num, evicted);
            if next.None? {
              return [], true;
            }
            position := next.value.id;
            return blocks + [(next.value, false)], false;
          }
        }
        BlockReader.PassOver(store, bestNum, index, position, blocks);
        blocks := blocks + [(here, true)];
        position := here.parent;
      }
    }
  }
}
