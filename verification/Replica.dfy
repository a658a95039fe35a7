/** The proposal map and the pacemaker as the program keeps them: objects updated in place,
    with the loops of the program. Every method is proved to do what the corresponding
    function of Pacemaker says. */
module Replica {
  import opened Blocks
  import opened Drafts
  import P = Pacemaker
  import opened CommitRuns

  lemma {:induction false} NumberZeroIsGenesis(b: Block)
    ensures b.Number() == 0 <==> b == Genesis
  {
  }

  class ProposalMap {
    var proposals: map<Block, Draft>
    var flagged: set<nat>
    var nextHandle: nat

    constructor ()
      ensures proposals == map[] && flagged == {} && nextHandle == 0
    {
      proposals, flagged, nextHandle := map[], {}, 0;
    }

    /** Keyed by block. */
    predicate Keyed()
      reads this
    {
      forall id :: id in proposals ==> proposals[id].block == id
    }

    method Add(d: Draft)
      modifies this`proposals
      ensures proposals == old(proposals)[d.block := d]
    {
      proposals := proposals[d.block := d];
    }

    method Get(store: P.Store, id: Block) returns (r: Option<Draft>)
      ensures forall s: P.State :: s.drafts == proposals && s.nextHandle == nextHandle ==>
        r == P.GetDraft(s, store, id)
    {
      if id in proposals {
        return Some(proposals[id]);
      }
      if id in store.blocks {
        var qc := store.blocks[id];
        return Some(Draft(nextHandle, id, P.Succ32(qc.round), qc, None, None, true, Unprocessed));
      }
      return None;
    }

    method GetOneByEscortQC(store: P.Store, qc: QC) returns (r: Option<Draft>)
      requires Keyed()
      ensures forall s: P.State :: s.drafts == proposals && s.nextHandle == nextHandle ==>
        r == P.GetByEscortQC(s, store, qc)
    {
      var keys := proposals.Keys;
      while keys != {}
        invariant keys <= proposals.Keys
        invariant forall k :: k in proposals && k !in keys ==> !P.MatchesQC(proposals[k], qc)
        decreases |keys|
      {
        var key :| key in keys;
        var d := proposals[key];
        if P.MatchesQC(d, qc) {
          NumberZeroIsGenesis(d.block);
          return Some(d);
        }
        keys := keys - {key};
      }
      if qc.height in store.trunk && store.trunk[qc.height] in store.blocks {
        var b := store.trunk[qc.height];
        if b.Number() == qc.height {
          return Some(Draft(nextHandle, b, qc.round, store.blocks[b], None, None, true, Unprocessed));
        }
      }
      return None;
    }

    method PruneUpTo(last: Draft)
      requires Keyed()
      modifies this`proposals, this`flagged
      ensures proposals == P.PruneDrafts(old(proposals), last)
      ensures flagged == if last.block in old(proposals)
                         then old(flagged) + {old(proposals)[last.block].handle} else old(flagged)
      ensures Keyed()
    {
      var keys := proposals.Keys;
      ghost var before := proposals;
      while keys != {}
        invariant keys <= before.Keys && keys <= proposals.Keys <= before.Keys
        invariant forall k :: k in proposals ==> proposals[k] == before[k]
        invariant forall k :: k in before && k !in keys ==>
          (k in proposals <==> k.Number() > last.Height() || k == last.block)
        invariant flagged == if last.block in before && last.block !in keys
                             then old(flagged) + {before[last.block].handle} else old(flagged)
        decreases |keys|
      {
        var key :| key in keys;
        var d := proposals[key];
        keys := keys - {key};
        if d.block.Number() < last.Height() {
          proposals := proposals - {d.block};
        }
        if d.block.Number() == last.Height() {
          if d.block != last.block {
            proposals := proposals - {d.block};
          } else {
            flagged := flagged + {d.handle};
          }
        }
      }
    }
  }

  /** What is still to be collected below `tmp`, put in front of `ready`. */
  function ReadyWith(tmp: Draft, floor: nat, ready: seq<Commit>): Option<seq<Commit>> {
    match CommitReady(tmp, floor)
    case None => None
    case Some(rest) => Some(rest + ready)
  }

  lemma ReadyWithStep(tmp: Draft, floor: nat, ready: seq<Commit>)
    requires tmp.parent.Some? && tmp.parent.value.Height() > floor
    ensures ReadyWith(tmp, floor, ready) ==
      ReadyWith(tmp.parent.value, floor, [Commit(tmp.parent.value, tmp.qc)] + ready)
  {
    var c := Commit(tmp.parent.value, tmp.qc);
    match CommitReady(tmp.parent.value, floor)
    case None =>
    case Some(rest) => assert rest + [c] + ready == rest + ([c] + ready);
  }

  lemma ReadyWithNothing(tmp: Draft, floor: nat)
    ensures ReadyWith(tmp, floor, []) == CommitReady(tmp, floor)
  {
    var r := CommitReady(tmp, floor);
    assert r.Some? ==> r.value + [] == r.value;
  }

  class Replica {
    const chain: ProposalMap
    var lastCommitted: Draft
    var lastVotingHeight: nat
    var qcHigh: DraftQC
    var currentRound: nat
    var lastOnBeatRound: int
    var halted: bool
    ghost var log: seq<Commit>

    /** Start a span on the best block's draft. */
    constructor (chain: ProposalMap, best: Draft, bestQC: QC, actualRound: nat)
      ensures this.chain == chain
      ensures View() == P.State(chain.proposals, chain.flagged, chain.nextHandle, best, 0,
                                DraftQC(bestQC, Some(best)), actualRound, P.Int32(P.Pred32(actualRound)), [], false)
    {
      this.chain := chain;
      lastCommitted, lastVotingHeight, qcHigh := best, 0, DraftQC(bestQC, Some(best));
      currentRound, lastOnBeatRound, halted, log := actualRound, P.Int32(P.Pred32(actualRound)), false, [];
    }

    ghost function View(): P.State
      reads this, chain
    {
      P.State(chain.proposals, chain.flagged, chain.nextHandle, lastCommitted, lastVotingHeight, qcHigh,
              currentRound, lastOnBeatRound, log, halted)
    }

    method ExtendedFromLastCommitted(b: Draft) returns (r: bool)
      ensures r == P.ExtendedFromLastCommitted(View(), b)
    {
      var i := 0;
      var tmp := b;
      while i < P.MAX_HOPS
        invariant 0 <= i <= P.MAX_HOPS
        invariant P.ExtendedWithin(b, lastCommitted, P.MAX_HOPS) ==
                  P.ExtendedWithin(tmp, lastCommitted, P.MAX_HOPS - i)
      {
        if tmp == lastCommitted {
          return true;
        }
        if tmp.parent.None? {
          return false;
        }
        tmp := tmp.parent.value;
        i := i + 1;
      }
      return false;
    }

    method UpdateQCHigh(cand: DraftQC) returns (updated: bool)
      modifies this
      ensures View() == P.UpdateQCHigh(old(View()), cand)
      ensures updated <==> P.JudgeQC(old(qcHigh), cand) == P.Replace
    {
      updated := false;
      if cand.node.Some? && cand.qc.height > qcHigh.qc.height {
        qcHigh, updated := cand, true;
      } else if qcHigh.node.None? {
        halted := true;
      } else if cand.qc.height == qcHigh.node.value.Height() && cand.qc.round > qcHigh.node.value.round {
        qcHigh, updated := cand, true;
      }
    }

    method EnterRound(round: nat, inCommittee: bool) returns (entered: bool)
      modifies this
      ensures View() == P.EnterRound(old(View()), round, inCommittee)
      ensures entered <==> inCommittee && (round == 0 || round >= old(currentRound))
    {
      if round > 0 && round < currentRound {
        return false;
      }
      if !inCommittee {
        return false;
      }
      currentRound := round;
      return true;
    }

    method OnCommit(commitReady: seq<Commit>)
      requires Coherent(View())
      modifies this, chain
      ensures View() == P.OnCommit(old(View()), commitReady)
    {
      ghost var before := View();
      var k := 0;
      assert commitReady[0..] == commitReady;
      while k < |commitReady|
        invariant 0 <= k <= |commitReady|
        invariant Coherent(View())
        invariant P.OnCommit(before, commitReady) == P.OnCommit(View(), commitReady[k..])
      {
        var d := commitReady[k].draft;
        assert commitReady[k..][0] == commitReady[k] && commitReady[k..][1..] == commitReady[k + 1..];
        k := k + 1;
        if d.processed == Unprocessed {
          continue;
        }
        if d.processed == Known {
          continue;
        }
        if d.block.IsSBlock() {
          continue;
        }
        chain.PruneUpTo(d);
      }
      assert commitReady[k..] == [];
    }

    method Update(store: P.Store, qc: QC)
      requires Coherent(View()) && !halted
      modifies this, chain
      ensures View() == P.Update(old(View()), store, qc)
    {
      ghost var before := View();
      var found := chain.GetOneByEscortQC(store, qc);
      assert found == P.GetByEscortQC(before, store, qc);
      if found.None? {
        return;
      }
      var bPrime := found.value;
      if bPrime.fromStore || bPrime.handle in chain.flagged {
        return;
      }
      if bPrime.justify.None? {
        halted := true;
        return;
      }
      var b := bPrime.justify.value;
      var _ := UpdateQCHigh(DraftQC(qc, Some(bPrime)));
      if halted {
        return;
      }
      if bPrime.parent != Some(b) {
        return;
      }
      var commitReady: seq<Commit> := [];
      var tmp := bPrime;
      ghost var floor := lastCommitted.Height();
      assert ReadyWith(tmp, floor, []) == CommitReady(tmp, floor) by {
        ReadyWithNothing(tmp, floor);
      }
      while tmp.parent.Some? && tmp.parent.value.Height() > lastCommitted.Height()
        modifies {}
        invariant ReadyWith(tmp, floor, commitReady) == CommitReady(bPrime, floor)
        decreases tmp
      {
        ReadyWithStep(tmp, floor, commitReady);
        commitReady := [Commit(tmp.parent.value, tmp.qc)] + commitReady;
        tmp := tmp.parent.value;
      }
      if tmp.parent.None? {
        halted := true;
        return;
      }
      assert CommitReady(tmp, floor) == Some([]) && [] + commitReady == commitReady;
      log := log + commitReady;
      OnCommit(commitReady);
      lastCommitted := b;
    }
  
    /** The transactions of `parent` and its uncommitted ancestors. */
    method CollectTxs(store: P.Store, parent: Draft) returns (txsInCache: set<TxId>)
      requires Coherent(View()) && P.GetDraft(View(), store, parent.block) == Some(parent)
      ensures txsInCache == P.TxsInCache(View(), store, parent.block)
    {
      txsInCache := {};
      var tmp := Some(parent);
      while tmp.Some? && !(tmp.value.fromStore || tmp.value.handle in chain.flagged)
        invariant tmp.Some? ==> P.GetDraft(View(), store, tmp.value.block) == tmp
        invariant P.TxsInCache(View(), store, parent.block) ==
          txsInCache + (if tmp.None? then {} else P.TxsInCache(View(), store, tmp.value.block))
        decreases tmp.Some?, if tmp.Some? then tmp.value.block.Number() else 0
      {
        var b := tmp.value.block;
        txsInCache := txsInCache + (set t | t in b.Transactions());
        if b.Genesis? {
          tmp := None;
        } else {
          tmp := chain.Get(store, b.parent);
        }
      }
    }

    method ValidateProposal(m: P.Proposal, parent: Draft) returns (r: Option<Processed>)
      requires Coherent(View()) && m.block.Block?
      requires P.GetDraft(View(), m.store, m.block.parent) == Some(parent)
      ensures r == P.ValidateProposal(View(), m)
    {
      if m.block.IsSBlock() && !parent.block.IsKBlock() && !parent.block.IsSBlock() {
        return None;
      }
      if m.execution == P.StateUnavailable {
        return Some(Unprocessed);
      }
      if |m.block.txs| > 0 {
        var txsInCache := CollectTxs(m.store, parent);
        var k := 0;
        while k < |m.block.txs|
          invariant 0 <= k <= |m.block.txs|
          invariant forall i :: 0 <= i < k ==> m.block.txs[i] !in txsInCache
        {
          if m.block.txs[k] in txsInCache {
            return None;
          }
          k := k + 1;
        }
      }
      match m.execution
      case Failed => return None;
      case KnownBlock => return Some(Known);
      case Executed => return Some(Success);
      case StateUnavailable => return Some(Unprocessed);
    }

    /** The checks on a proposal up to the draft built for it. */
    method CheckProposal(m: P.Proposal) returns (bnew: Option<Draft>)
      requires Coherent(View())
      ensures bnew == P.Accept(View(), m)
    {
      if m.block.Genesis? || m.block.Number() < lastCommitted.Height() {
        return None;
      }
      var found := chain.Get(m.store, m.block.parent);
      assert found == P.GetDraft(View(), m.store, m.block.parent);
      if found.None? {
        return None;
      }
      var parent := found.value;
      if !m.qcValid {
        return None;
      }
      if m.round == 0 && parent.Height() != 0 && !parent.block.IsKBlock() {
        return None;
      }
      if m.round > 0 && P.Succ32(parent.round) != m.round {
        if !m.tcValid {
          return None;
        } else if !parent.block.IsKBlock() && parent.round >= m.round {
          return None;
        }
      }
      var processed := ValidateProposal(m, parent);
      if processed.None? {
        return None;
      }
      return Some(Draft(chain.nextHandle + 1, m.block, m.round, m.qc, found, found, false, processed.value));
    }

    method OnReceiveProposal(m: P.Proposal) returns (voted: bool)
      requires Coherent(View()) && !halted
      modifies this, chain
      ensures View() == P.OnReceiveProposal(old(View()), m)
      ensures voted <==> P.VotesFor(old(View()), m) && !halted
    {
      ghost var before := View();
      voted := false;
      var checked := CheckProposal(m);
      if checked.None? {
        return;
      }
      var bnew := checked.value;
      if bnew.block !in chain.proposals {
        chain.Add(bnew);
      }
      chain.nextHandle := chain.nextHandle + 2;
      assert View() == P.AddIfAbsent(before, bnew);
      AcceptCoherent(before, m);
      var extended := ExtendedFromLastCommitted(bnew);
      if bnew.Height() >= lastVotingHeight && extended {
        if !m.signed {
          return;
        }
        Update(m.store, bnew.qc);
        if halted {
          return;
        }
        voted := true;
        lastVotingHeight := bnew.Height();
        var _ := EnterRound(P.Succ32(m.round), true);
      }
    }

    method OnReceiveVote(v: P.VoteMsg)
      requires Coherent(View()) && !halted
      modifies this, chain
      ensures View() == P.OnReceiveVote(old(View()), v)
    {
      ghost var before := View();
      if !(v.round == currentRound && v.round == 0) && v.round < P.Pred32(currentRound) {
        return;
      }
      if !v.toNextProposer {
        return;
      }
      var b := chain.Get(v.store, v.block);
      assert b == P.GetDraft(before, v.store, v.block);
      if b.None? {
        return;
      }
      if b.value.round != v.round {
        return;
      }
      if v.formed.None? {
        return;
      }
      var changed := UpdateQCHigh(DraftQC(v.formed.value, b));
      if changed {
        chain.nextHandle := chain.nextHandle + 1;
        assert View() == Raised(before, v);
        Update(v.store, v.formed.value);
        if !halted {
          var _ := EnterRound(P.Succ32(v.round), true);
        }
      }
    }

    method OnReceiveTimeout(t: P.TimeoutMsg)
      requires Coherent(View()) && !halted
      modifies this, chain
      ensures View() == P.OnReceiveTimeout(old(View()), t)
    {
      ghost var before := View();
      if !t.toProposer {
        return;
      }
      if t.formed.Some? {
        var escortQCNode := chain.GetOneByEscortQC(t.store, t.formed.value);
        assert escortQCNode == P.GetByEscortQC(before, t.store, t.formed.value);
        var _ := UpdateQCHigh(DraftQC(t.formed.value, escortQCNode));
        if halted {
          return;
        }
        chain.nextHandle := chain.nextHandle + 1;
        assert View() == FirstRaise(before, t);
        Update(t.store, t.formed.value);
        UpdateCoherent(FirstRaise(before, t), t.store, t.formed.value);
        if halted {
          return;
        }
      }
      ghost var mid := View();
      var qcNode := chain.GetOneByEscortQC(t.store, t.qcHigh);
      assert qcNode == P.GetByEscortQC(mid, t.store, t.qcHigh);
      var _ := UpdateQCHigh(DraftQC(t.qcHigh, qcNode));
      chain.nextHandle := chain.nextHandle + 1;
    }

    method OnBeat(curEpoch: nat, b: P.BeatMsg) returns (built: bool)
      requires Coherent(View()) && !halted
      modifies this, chain
      ensures View() == P.OnBeat(old(View()), curEpoch, b)
      ensures built ==> P.Beats(old(View()), curEpoch, b)
    {
      ghost var before := View();
      built := false;
      if b.epoch < curEpoch {
        return;
      }
      if b.epoch == curEpoch && P.Int32(b.round) <= lastOnBeatRound {
        return;
      }
      if !b.amProposer {
        return;
      }
      lastOnBeatRound := P.Int32(b.round);
      var parent := chain.GetOneByEscortQC(b.store, qcHigh.qc);
      assert parent == P.GetByEscortQC(before, b.store, qcHigh.qc);
      if parent.None? || b.leaf.None? {
        return;
      }
      var leaf := b.leaf.value;
      var block := Block(parent.value.block, leaf.kind, leaf.txs, leaf.salt);
      if block.Number() <= qcHigh.qc.height {
        return;
      }
      built := true;
      chain.Add(Draft(chain.nextHandle + 1, block, b.round, qcHigh.qc, parent, qcHigh.node, false, Success));
      chain.nextHandle := chain.nextHandle + 2;
    }
  }
}
