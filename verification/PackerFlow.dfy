/** The packing flow as an object updated in place, the proposer's selection loop over it and
    the validator's replay loop, each proved against the functions of Packing. */
module PackerFlow {
  import opened Blocks
  import opened GasLimit
  import opened Packing
  import Drafts
  import P = Pacemaker
  import DoubleInclusion

  class PackingFlow {
    const ctx: Context
    var processed: map<TxId, bool>
    var gasUsed: uint64
    var txs: seq<Tx>
    var receipts: seq<Receipt>
    var state: nat

    ghost function View(): Flow
      reads this
    {
      Flow(ctx, processed, gasUsed, txs, receipts, state)
    }

    constructor (parent: Header, time: uint64, gasLimit: uint64, beneficiary: nat, nodeMaster: nat)
      ensures View() == Mock(parent, time, gasLimit, beneficiary, nodeMaster)
    {
      ctx := Context(beneficiary, nodeMaster, parent.number + 1, time, gasLimit, Add64(parent.totalScore, 1));
      processed, gasUsed, txs, receipts, state := map[], 0, [], [], parent.stateRoot;
    }

    method Find(w: World, id: TxId) returns (r: Lookup)
      ensures r == FindTx(w, processed, id)
    {
      if id in processed {
        return Found(processed[id]);
      }
      return w.meta(id);
    }

    /** The state moves during a failed execution and is put back. */
    method Adopt(w: World, tx: Tx) returns (refused: Option<AdoptError>)
      modifies this
      ensures (View(), refused) == Packing.Adopt(w, old(View()), tx)
    {
      if tx.chainTag != w.tag {
        return Some(BadTx);
      } else if ctx.number < tx.blockRef {
        return Some(NotAdoptableNow);
      } else if tx.IsExpired(ctx.number) {
        return Some(BadTx);
      } else if Add64(gasUsed, tx.gas) > ctx.gasLimit {
        if ctx.gasLimit > 0 && gasUsed as real / ctx.gasLimit as real < 0.9 {
          return Some(NotAdoptableNow);
        }
        return Some(GasLimitReached);
      }
      if !tx.ethValid {
        return Some(EthInvalid);
      }
      var known := Find(w, tx.id);
      if known.LookupError? {
        return Some(LookupFailed);
      } else if known.Found? {
        return Some(KnownTx);
      }
      if tx.dependsOn.Some? {
        var needed := Find(w, tx.dependsOn.value);
        match needed {
          case LookupError => return Some(LookupFailed);
          case NotFound => return Some(NotAdoptableNow);
          case Found(reverted) =>
            if reverted {
              return Some(NeverAdoptable);
            }
        }
      }
      var checkpoint := state;
      var run := w.exec(ctx, state, tx);
      state := run.after;
      if run.receipt.None? {
        state := checkpoint;
        return Some(BadTx);
      }
      processed := processed[tx.id := run.receipt.value.reverted];
      gasUsed := Add64(gasUsed, run.receipt.value.gasUsed);
      receipts := receipts + [run.receipt.value];
      txs := txs + [tx];
      return None;
    }

    method Seal(kind: Kind, lastKBlock: nat) returns (b: PackedBlock)
      ensures b == Pack(View(), kind, lastKBlock)
    {
      var body := [];
      if kind != SBlock {
        for i := 0 to |txs|
          invariant body == txs[..i]
        {
          body := body + [txs[i]];
        }
      }
      b := PackedBlock(
        Header(ctx.number, ctx.time, ctx.gasLimit, gasUsed, ctx.totalScore, ctx.beneficiary,
               kind, lastKBlock, body, state, receipts, Some(ctx.signer)),
        body, MAGIC);
    }
  }

  /** A pooled transaction with the pool's verdicts on it. */
  datatype Pooled = Pooled(tx: Tx, executable: bool, blacklisted: bool)

  /** The transactions of `parent` and of its ancestors up to the first committed or missing
      draft. */
  function CachedTxs(s: P.State, store: P.Store, parent: Drafts.Draft): (r: set<TxId>)
    ensures P.GetDraft(s, store, parent.block) == Some(parent) ==> r == P.TxsInCache(s, store, parent.block)
  {
    if P.Committed(s, parent) then {}
    else
      (set t | t in parent.block.Transactions()) +
      if parent.block.Genesis? then {} else P.TxsInCache(s, store, parent.block.parent)
  }

  /** The proposer's walk over uncommitted drafts. */
  method CollectCached(s: P.State, store: P.Store, parent: Drafts.Draft) returns (cached: set<TxId>)
    requires forall id :: id in s.drafts ==> s.drafts[id].block == id
    ensures cached == CachedTxs(s, store, parent)
  {
    cached := {};
    var tmp := Some(parent);
    while tmp.Some? && !P.Committed(s, tmp.value)
      invariant CachedTxs(s, store, parent) == cached + (if tmp.None? then {} else CachedTxs(s, store, tmp.value))
      decreases tmp.Some?, if tmp.Some? then tmp.value.block.Number() else 0
    {
      var b := tmp.value.block;
      cached := cached + (set t | t in b.Transactions());
      tmp := if b.Genesis? then None else P.GetDraft(s, store, b.parent);
    }
  }

  predicate Eligible(p: Pooled, cached: set<TxId>) {
    p.tx.id !in cached && p.executable && !p.blacklisted
  }

  ghost predicate AllEligible(offers: seq<Tx>, pool: seq<Pooled>, cached: set<TxId>) {
    forall tx :: tx in offers ==> exists k :: 0 <= k < |pool| && pool[k].tx == tx && Eligible(pool[k], cached)
  }

  /** The eligible transactions, in pool order. */
  function EligibleTxs(pool: seq<Pooled>, cached: set<TxId>): seq<Tx> {
    if pool == [] then []
    else
      var p := pool[|pool| - 1];
      EligibleTxs(pool[..|pool| - 1], cached) +
      if p.tx.id !in cached && p.executable && !p.blacklisted then [p.tx] else []
  }

  /** They are exactly the pooled transactions that the pool calls executable, whose sender is not
      blacklisted, and that no uncommitted draft below has. */
  lemma {:induction false} EligibleTxsIff(pool: seq<Pooled>, cached: set<TxId>, tx: Tx)
    ensures tx in EligibleTxs(pool, cached) <==>
      tx.id !in cached && exists k :: 0 <= k < |pool| && pool[k].tx == tx && pool[k].executable && !pool[k].blacklisted
    ensures tx in EligibleTxs(pool, cached) ==> exists k :: 0 <= k < |pool| && pool[k].tx == tx && Eligible(pool[k], cached)
  {
    if pool != [] {
      var init, last := pool[..|pool| - 1], |pool| - 1;
      EligibleTxsIff(init, cached, tx);
      if k :| 0 <= k < |init| && init[k].tx == tx && init[k].executable && !init[k].blacklisted {
        assert pool[k] == init[k];
      }
      if k :| 0 <= k < |pool| && pool[k].tx == tx && pool[k].executable && !pool[k].blacklisted {
        assert k < last ==> init[k] == pool[k];
      }
    }
  }

  lemma EligibleTxsAreEligible(pool: seq<Pooled>, cached: set<TxId>)
    ensures AllEligible(EligibleTxs(pool, cached), pool, cached)
  {
    forall tx | tx in EligibleTxs(pool, cached)
      ensures exists k :: 0 <= k < |pool| && pool[k].tx == tx && Eligible(pool[k], cached)
    {
      EligibleTxsIff(pool, cached, tx);
    }
  }

  /** The flow after it was offered the eligible transactions before position `i`. */
  function Offered(w: World, f: Flow, pool: seq<Pooled>, cached: set<TxId>, i: nat): Flow
    requires i <= |pool|
  {
    AdoptAll(w, f, EligibleTxs(pool[..i], cached))
  }

  /** What it says then to the transaction at `i`. */
  function Answer(w: World, f: Flow, pool: seq<Pooled>, cached: set<TxId>, i: nat): Option<AdoptError>
    requires i < |pool|
  {
    Adopt(w, Offered(w, f, pool, cached, i), pool[i].tx).1
  }

  lemma OfferedNext(w: World, f: Flow, pool: seq<Pooled>, cached: set<TxId>, i: nat)
    requires i < |pool|
    ensures var g := Offered(w, f, pool, cached, i);
      Offered(w, f, pool, cached, i + 1) == if Eligible(pool[i], cached) then Adopt(w, g, pool[i].tx).0 else g
    ensures var g := Offered(w, f, pool, cached, i);
      Adopt(w, g, pool[i].tx).0.txs == if Answer(w, f, pool, cached, i).None? then g.txs + [pool[i].tx] else g.txs
  {
    var before := EligibleTxs(pool[..i], cached);
    assert pool[..i + 1][..i] == pool[..i];
    assert EligibleTxs(pool[..i + 1], cached) == if Eligible(pool[i], cached) then before + [pool[i].tx] else before;
    AdoptAllSnoc(w, f, before, pool[i].tx);
    AdoptShape(w, Offered(w, f, pool, cached, i), pool[i].tx);
  }

  /** The selection gives up after the transaction at `i`: it is eligible, and the block was full, or
      it was not just out of turn and time was up. */
  predicate GivesUp(pool: seq<Pooled>, cached: set<TxId>, late: nat -> bool, answer: nat -> Option<AdoptError>, i: nat)
    requires i < |pool|
  {
    pool[i].tx.id !in cached && pool[i].executable && !pool[i].blacklisted &&
    (answer(i) == Some(GasLimitReached) || (answer(i) != Some(NotAdoptableNow) && late(i)))
  }

  /** `stop` is the first position after which the selection gives up, or the end of the pool. */
  predicate StopsAt(pool: seq<Pooled>, cached: set<TxId>, late: nat -> bool, answer: nat -> Option<AdoptError>, stop: nat) {
    stop <= |pool| &&
    (forall i :: 0 <= i < stop - 1 ==> !GivesUp(pool, cached, late, answer, i)) &&
    (stop == |pool| || (stop > 0 && GivesUp(pool, cached, late, answer, stop - 1)))
  }

  predicate At(i: nat) {
    true
  }

  /** `answer` and `after` are what the flow says and becomes; looked at only position by position. */
  ghost predicate Foresees(w: World, f: Flow, pool: seq<Pooled>, cached: set<TxId>,
                           answer: nat -> Option<AdoptError>, after: nat -> Flow) {
    forall i: nat {:trigger At(i)} :: At(i) && i <= |pool| ==>
      after(i) == Offered(w, f, pool, cached, i) && (i < |pool| ==> answer(i) == Answer(w, f, pool, cached, i))
  }

  /** Offer the eligible transaction at `i`. */
  method Offer(w: World, flow: PackingFlow, pool: seq<Pooled>, i: nat, ghost f: Flow, ghost cached: set<TxId>,
               ghost answer: nat -> Option<AdoptError>, ghost after: nat -> Flow) returns (refused: Option<AdoptError>)
    requires Foresees(w, f, pool, cached, answer, after) && i < |pool| && Eligible(pool[i], cached)
    requires flow.View() == after(i)
    modifies flow
    ensures flow.View() == after(i + 1) && refused == answer(i)
    ensures flow.txs == if refused.None? then old(flow.txs) + [pool[i].tx] else old(flow.txs)
  {
    assert At(i) && At(i + 1);
    OfferedNext(w, f, pool, cached, i);
    refused := flow.Adopt(w, pool[i].tx);
  }

  lemma PassedBy(w: World, f: Flow, pool: seq<Pooled>, cached: set<TxId>, answer: nat -> Option<AdoptError>,
                 after: nat -> Flow, i: nat)
    requires Foresees(w, f, pool, cached, answer, after) && i < |pool| && !Eligible(pool[i], cached)
    ensures after(i + 1) == after(i)
  {
    assert At(i) && At(i + 1);
    OfferedNext(w, f, pool, cached, i);
  }

  /** The proposer's loop over the pool, once the cached transactions are known. */
  method SelectFrom(w: World, flow: PackingFlow, pool: seq<Pooled>, cached: set<TxId>, late: nat -> bool, ghost f: Flow,
                    ghost answer: nat -> Option<AdoptError>, ghost after: nat -> Flow) returns (taken: seq<Tx>, ghost stop: nat)
    requires Foresees(w, f, pool, cached, answer, after) && flow.View() == after(0)
    modifies flow
    ensures StopsAt(pool, cached, late, answer, stop) && flow.View() == after(stop)
    ensures flow.txs == old(flow.txs) + taken
    ensures forall tx :: tx in taken ==> tx.id !in cached
  {
    taken, stop := [], 0;
    for i := 0 to |pool|
      invariant stop == i && flow.View() == after(i)
      invariant flow.txs == old(flow.txs) + taken
      invariant forall tx :: tx in taken ==> tx.id !in cached
      invariant forall j :: 0 <= j < i ==> !GivesUp(pool, cached, late, answer, j)
    {
      var p := pool[i];
      stop := i + 1;
      if p.tx.id in cached || !p.executable || p.blacklisted {
        PassedBy(w, f, pool, cached, answer, after, i);
        continue;
      }
      var refused := Offer(w, flow, pool, i, f, cached, answer, after);
      if refused == Some(GasLimitReached) {
        break;
      } else if refused == Some(NotAdoptableNow) {
        continue;
      } else if refused.None? {
        taken := taken + [p.tx];
      }
      if late(i) {
        break;
      }
    }
  }

  /** The answers to the transactions of the pool, each after the eligible ones before it. */
  function AnswersTo(w: World, f: Flow, pool: seq<Pooled>, cached: set<TxId>): nat -> Option<AdoptError> {
    (i: nat) => if i < |pool| then Answer(w, f, pool, cached, i) else None
  }

  function FlowsAfter(w: World, f: Flow, pool: seq<Pooled>, cached: set<TxId>): nat -> Flow {
    (i: nat) => if i <= |pool| then Offered(w, f, pool, cached, i) else f
  }

  lemma CanForesee(w: World, f: Flow, pool: seq<Pooled>, cached: set<TxId>)
    ensures Foresees(w, f, pool, cached, AnswersTo(w, f, pool, cached), FlowsAfter(w, f, pool, cached))
    ensures FlowsAfter(w, f, pool, cached)(0) == f
  {
    assert pool[..0] == [] && EligibleTxs([], cached) == [];
    assert AdoptAll(w, f, []) == f;
  }

  lemma AfterIsOffered(w: World, f: Flow, pool: seq<Pooled>, cached: set<TxId>, i: nat)
    requires i <= |pool|
    ensures FlowsAfter(w, f, pool, cached)(i) == Offered(w, f, pool, cached, i)
  {
  }

  /** The proposer's loop over the pool: it offers the flow exactly the eligible transactions before
      the first position after which it gives up, in pool order, and takes those adopted. */
  method SelectTxs(w: World, flow: PackingFlow, pool: seq<Pooled>, s: P.State, store: P.Store, parent: Drafts.Draft,
                   late: nat -> bool) returns (taken: seq<Tx>, ghost stop: nat)
    requires forall id :: id in s.drafts ==> s.drafts[id].block == id
    modifies flow
    ensures StopsAt(pool, CachedTxs(s, store, parent), late,
                    AnswersTo(w, old(flow.View()), pool, CachedTxs(s, store, parent)), stop)
    ensures flow.View() == Offered(w, old(flow.View()), pool, CachedTxs(s, store, parent), stop)
    ensures flow.txs == old(flow.txs) + taken
    ensures forall tx :: tx in taken ==> tx.id !in CachedTxs(s, store, parent)
  {
    var cached := CollectCached(s, store, parent);
    ghost var f := flow.View();
    CanForesee(w, f, pool, cached);
    taken, stop := SelectFrom(w, flow, pool, cached, late, f, AnswersTo(w, f, pool, cached), FlowsAfter(w, f, pool, cached));
    AfterIsOffered(w, f, pool, cached, stop);
  }

  // ---------- what the selection guarantees ----------

  /** Everything adopted is new to the parent's chain and recorded. */
  predicate AdoptedNew(w: World, f: Flow) {
    AllNew(w, f.txs) && forall k :: 0 <= k < |f.txs| ==> f.txs[k].id in f.processed
  }

  lemma AdoptKeepsNew(w: World, f: Flow, tx: Tx)
    requires AdoptedNew(w, f)
    ensures AdoptedNew(w, Adopt(w, f, tx).0)
  {
    AdoptShape(w, f, tx);
    var g := Adopt(w, f, tx).0;
    if Adopt(w, f, tx).1.None? {
      assert tx.id !in f.processed && w.meta(tx.id) == NotFound;
      forall k | 0 <= k < |g.txs|
        ensures g.txs[k].id in g.processed && w.meta(g.txs[k].id) == NotFound && (k < |f.txs| ==> g.txs[k].id != tx.id)
      {
        assert k < |f.txs| ==> g.txs[k] == f.txs[k] && f.txs[k].id in f.processed;
      }
    }
  }

  lemma {:induction false} AdoptAllKeepsNew(w: World, f: Flow, offers: seq<Tx>)
    requires AdoptedNew(w, f)
    ensures AdoptedNew(w, AdoptAll(w, f, offers))
    decreases |offers|
  {
    if offers != [] {
      AdoptKeepsNew(w, f, offers[0]);
      AdoptAllKeepsNew(w, Adopt(w, f, offers[0]).0, offers[1..]);
    }
  }

  function IdsOf(txs: seq<Tx>): seq<TxId> {
    seq(|txs|, k requires 0 <= k < |txs| => txs[k].id)
  }

  /** When the lookup finds what is on the trunk, the transactions of a block built from eligible
      offers are exactly as the protocol's own proposals need them: none of an uncommitted draft
      under the block, none on the trunk, none twice. */
  lemma BuiltBlockIsFresh(w: World, f: Flow, offers: seq<Tx>, pool: seq<Pooled>,
                          s: P.State, store: P.Store, parent: Drafts.Draft)
    requires f.txs == [] && P.GetDraft(s, store, parent.block) == Some(parent)
    requires AllEligible(offers, pool, CachedTxs(s, store, parent))
    requires forall t :: DoubleInclusion.OnTrunk(store, t, parent.Height()) ==> w.meta(t) != NotFound
    ensures DoubleInclusion.FreshTxs(s, store, parent.block, IdsOf(AdoptAll(w, f, offers).txs))
  {
    AdoptAllKeepsNew(w, f, offers);
    AdoptedAreOffers(w, f, offers);
    var txs := AdoptAll(w, f, offers).txs;
    var ids := IdsOf(txs);
    forall t | t in ids
      ensures t !in P.TxsInCache(s, store, parent.block) && !DoubleInclusion.OnTrunk(store, t, parent.Height())
    {
      var k :| 0 <= k < |ids| && ids[k] == t;
      assert txs[k] in offers && txs[k].id == t;
    }
  }

  /** So is what any selection leaves in the flow. */
  lemma SelectionIsFresh(w: World, f: Flow, pool: seq<Pooled>, s: P.State, store: P.Store, parent: Drafts.Draft, stop: nat)
    requires f.txs == [] && P.GetDraft(s, store, parent.block) == Some(parent) && stop <= |pool|
    requires forall t :: DoubleInclusion.OnTrunk(store, t, parent.Height()) ==> w.meta(t) != NotFound
    ensures DoubleInclusion.FreshTxs(s, store, parent.block, IdsOf(Offered(w, f, pool, CachedTxs(s, store, parent), stop).txs))
  {
    var cached := CachedTxs(s, store, parent);
    EligibleTxsAreEligible(pool[..stop], cached);
    BuiltBlockIsFresh(w, f, EligibleTxs(pool[..stop], cached), pool[..stop], s, store, parent);
  }

  /** And what the validator's acceptance establishes is what the protocol model asks of an executed
      proposal of that block, given that the lookup finds what is on the trunk. */
  lemma ValidatedIsVerified(w: World, b: PackedBlock, parent: Header, now: uint64, force: bool, epoch: nat,
                            localLastK: nat, m: P.Proposal)
    requires Validate(w, b, parent, now, force, epoch, localLastK).Some?
    requires m.block.Block? && m.block.txs == IdsOf(b.txs)
    requires forall t :: DoubleInclusion.OnTrunk(m.store, t, m.block.parent.Number()) ==> w.meta(t) != NotFound
    ensures DoubleInclusion.VerifiedTxs(m)
  {
    ReplayedAreNew(w, BlockContext(b.header), b.header.kind, parent.stateRoot, b.txs);
    forall t | t in m.block.txs
      ensures !DoubleInclusion.OnTrunk(m.store, t, m.block.parent.Number())
    {
      var k :| 0 <= k < |b.txs| && b.txs[k].id == t;
    }
  }

  /** The validator's loop. */
  method ReplayBlock(w: World, b: PackedBlock, parentState: nat) returns (r: Option<(nat, seq<Receipt>)>)
    requires b.header.signer.Some?
    ensures r == VerifyBlock(w, b, parentState)
  {
    var h, ctx := b.header, BlockContext(b.header);
    var totalGas: uint64, receipts: seq<Receipt>, processed: map<TxId, bool>, state := 0, [], map[], parentState;
    for i := 0 to |b.txs|
      invariant ReplayAll(w, ctx, h.kind, parentState, b.txs[..i]) == Some(Replay(state, receipts, totalGas, processed))
    {
      var tx := b.txs[i];
      ReplaySnoc(w, ctx, h.kind, parentState, b.txs[..i], tx);
      assert b.txs[..i + 1] == b.txs[..i] + [tx];
      ghost var acc := Replay(state, receipts, totalGas, processed);
      var failed := tx.signer.Unavailable? || (tx.signer.Zero? && h.kind != KBlock);
      if !failed {
        var known := if tx.id in processed then Found(processed[tx.id]) else w.meta(tx.id);
        failed := !known.NotFound?;
      }
      if !failed && tx.dependsOn.Some? {
        var d := tx.dependsOn.value;
        var needed := if d in processed then Found(processed[d]) else w.meta(d);
        failed := needed.LookupError? || needed.NotFound? || needed.reverted;
      }
      if failed {
        assert ReplayOne(w, ctx, h.kind, acc, tx).None?;
        ReplayStops(w, ctx, h.kind, parentState, b.txs, i + 1);
        return None;
      }
      var run := w.exec(ctx, state, tx);
      if run.receipt.None? {
        ReplayStops(w, ctx, h.kind, parentState, b.txs, i + 1);
        return None;
      }
      state := run.after;
      totalGas := Add64(totalGas, run.receipt.value.gasUsed);
      receipts := receipts + [run.receipt.value];
      processed := processed[tx.id := run.receipt.value.reverted];
    }
    assert b.txs[..|b.txs|] == b.txs;
    if h.gasUsed != totalGas || h.receiptsRoot != receipts || h.stateRoot != state {
      return None;
    }
    return Some((state, receipts));
  }

  /** A block whose prefix cannot be replayed cannot be replayed. */
  lemma {:induction false} ReplayStops(w: World, ctx: Context, kind: Kind, start: nat, txs: seq<Tx>, k: nat)
    requires k <= |txs| && ReplayAll(w, ctx, kind, start, txs[..k]).None?
    ensures ReplayAll(w, ctx, kind, start, txs).None?
    decreases |txs|
  {
    if k == |txs| {
      assert txs[..k] == txs;
    } else {
      var init := txs[..|txs| - 1];
      assert init[..k] == txs[..k];
      ReplayStops(w, ctx, kind, start, init, k);
    }
  }
}
