/** Which proposals a replica accepts and votes on, in terms of what it holds and was sent, and
    where the drafts in its map come from. */
module Acceptance {
  import opened Blocks
  import opened Drafts
  import opened Pacemaker
  import opened CommitRuns
  import opened ProposalRuns
  import opened DoubleInclusion

  // ---------- rounds ----------

  /** Round 0 begins on genesis or a KBlock; any later round is the parent's plus one in 32 bits, or
      comes with a valid timeout certificate and then rises above the parent's unless that is a
      KBlock. */
  predicate Follows(parent: Draft, round: nat, timeoutCert: bool) {
    if round == 0 then parent.block == Genesis || parent.block.IsKBlock()
    else
      round == (parent.round + 1) % 0x1_0000_0000 ||
      (timeoutCert && (parent.block.IsKBlock() || round > parent.round))
  }

  /** Some draft the walk from the parent visits has a transaction of the block. */
  ghost predicate SharesWithDraft(s: State, m: Proposal)
    requires m.block.Block?
  {
    exists a, t :: Walked(s, m.store, m.block.parent, a) && t in a.Transactions() && t in m.block.txs
  }

  lemma {:induction false} CachedIsWalked(s: State, store: Store, b: Block, t: TxId) returns (a: Block)
    requires t in TxsInCache(s, store, b)
    ensures Walked(s, store, b, a) && t in a.Transactions()
  {
    if t in b.Transactions() {
      a := b;
    } else {
      a := CachedIsWalked(s, store, b.parent, t);
    }
  }

  lemma SharesIff(s: State, m: Proposal)
    requires m.block.Block?
    ensures SharesWithDraft(s, m) <==> exists t :: t in m.block.txs && t in TxsInCache(s, m.store, m.block.parent)
  {
    if a, t :| Walked(s, m.store, m.block.parent, a) && t in a.Transactions() && t in m.block.txs {
      WalkedIsCached(s, m.store, m.block.parent, a, t);
    }
    if t :| t in m.block.txs && t in TxsInCache(s, m.store, m.block.parent) {
      var a := CachedIsWalked(s, m.store, m.block.parent, t);
    }
  }

  /** A block that stops the committee sits on a KBlock or on another such block. */
  predicate StopsInPlace(b: Block) {
    b.Block? && (b.kind == SBlock ==> b.parent.Block? && b.parent.kind != MBlock)
  }

  /** A proposal is accepted exactly when its block is no lower than the last committed one, its
      parent is held, its certificate is valid, its round follows the parent's, it stops the
      committee only in its place, and, unless the state could not be opened, it shares no
      transaction with an uncommitted draft below it and executed without failing. The draft
      carries its round and what became of its execution. */
  lemma AcceptIff(s: State, m: Proposal)
    ensures Accept(s, m).Some? <==>
      StopsInPlace(m.block) && m.block.Number() >= s.lastCommitted.block.Number() && m.qcValid &&
      GetDraft(s, m.store, m.block.parent).Some? &&
      Follows(GetDraft(s, m.store, m.block.parent).value, m.round, m.tcValid) &&
      (m.execution == StateUnavailable || (m.execution != Failed && !SharesWithDraft(s, m)))
    ensures Accept(s, m).Some? ==>
      var d := Accept(s, m).value;
      d.round == m.round && (d.processed == Success <==> m.execution == Executed) &&
      (d.processed == Known <==> m.execution == KnownBlock)
  {
    if m.block.Block? {
      SharesIff(s, m);
      var parent := GetDraft(s, m.store, m.block.parent);
      assert parent.Some? ==> (RoundAllowed(parent.value, m.round, m.tcValid) <==> Follows(parent.value, m.round, m.tcValid));
    }
  }

  // ---------- votes ----------

  /** The draft `k` parent pointers below `d`. */
  function Below(d: Draft, k: nat): Option<Draft> {
    if k == 0 then Some(d) else if d.parent.None? then None else Below(d.parent.value, k - 1)
  }

  lemma {:induction false} ExtendedReaches(d: Draft, last: Draft, hops: nat) returns (k: nat)
    requires ExtendedWithin(d, last, hops)
    ensures k < hops && Below(d, k) == Some(last)
    decreases hops
  {
    k := 0;
    if d != last {
      k := ExtendedReaches(d.parent.value, last, hops - 1);
      k := k + 1;
    }
  }

  lemma {:induction false} ReachedIsExtended(d: Draft, last: Draft, hops: nat, k: nat)
    requires k < hops && Below(d, k) == Some(last)
    ensures ExtendedWithin(d, last, hops)
    decreases hops
  {
    if k > 0 {
      ReachedIsExtended(d.parent.value, last, hops - 1, k - 1);
    }
  }

  /** A replica votes exactly on an accepted block that it can sign, is no lower than its last vote,
      and has the last committed draft among itself and its nine nearest ancestors. */
  lemma VotesForIff(s: State, m: Proposal)
    ensures VotesFor(s, m) <==>
      !s.halted && m.signed && Accept(s, m).Some? && m.block.Number() >= s.lastVotingHeight &&
      exists k: nat :: k < 10 && Below(Accept(s, m).value, k) == Some(s.lastCommitted)
  {
    if Accept(s, m).Some? {
      var d := Accept(s, m).value;
      if ExtendedFromLastCommitted(s, d) {
        var k := ExtendedReaches(d, s.lastCommitted, MAX_HOPS);
      }
      if k: nat :| k < 10 && Below(d, k) == Some(s.lastCommitted) {
        ReachedIsExtended(d, s.lastCommitted, MAX_HOPS, k);
      }
    }
  }

  // ---------- where drafts come from ----------

  /** Message `e` put draft `d` into the map of a replica in state `s`: an accepted proposal whose
      round follows, or the replica's own block on its highest certificate. */
  predicate Brought(s: State, e: Event, d: Draft) {
    match e
    case Propose(m) =>
      Accept(s, m) == Some(d) && d.block == m.block && d.qc == m.qc && d.round == m.round &&
      d.parent.Some? && Follows(d.parent.value, d.round, m.tcValid)
    case Beat(epoch, b) =>
      b.amProposer && b.epoch >= epoch && (b.epoch == epoch ==> Int32(b.round) > s.lastOnBeatRound) &&
      d.round == b.round && d.qc == s.qcHigh.qc && d.justify == s.qcHigh.node && d.parent.Some? &&
      d.parent.value.Height() == s.qcHigh.qc.height && d.parent.value.round == s.qcHigh.qc.round &&
      d.block.Block? && d.block.parent == d.parent.value.block
    case Vote(_) => false
    case Timeout(_) => false
    case RoundTimeout(_, _) => false
  }

  lemma UpdateBringsNone(s: State, store: Store, qc: QC, id: Block)
    requires id in Update(s, store, qc).drafts
    ensures id in s.drafts && Update(s, store, qc).drafts[id] == s.drafts[id]
  {
    if Commits(s, store, qc) {
      var bPrime := GetByEscortQC(s, store, qc).value;
      var s1 := UpdateQCHigh(s, DraftQC(qc, Some(bPrime)));
      var batch := CommitReady(bPrime, s.lastCommitted.Height()).value;
      OnCommitFrame(s1.(log := s1.log + batch), batch);
      assert Update(s, store, qc).drafts == OnCommit(s1.(log := s1.log + batch), batch).drafts;
    } else {
      UpdateIdle(s, store, qc);
    }
  }

  lemma ProposalBrings(s: State, m: Proposal, id: Block)
    requires Coherent(s) && id in OnReceiveProposal(s, m).drafts
    ensures var d := OnReceiveProposal(s, m).drafts[id];
      (id in s.drafts && s.drafts[id] == d) || Brought(s, Propose(m), d)
  {
    if !s.halted && Accept(s, m).Some? {
      AcceptIff(s, m);
      ProposalCore(s, m);
      if VotesFor(s, m) {
        UpdateBringsNone(AddIfAbsent(s, Accept(s, m).value), m.store, m.qc, id);
      }
    }
  }

  lemma StepBrings(s: State, e: Event, id: Block)
    requires Coherent(s) && id in Step(s, e).drafts
    ensures var d := Step(s, e).drafts[id]; (id in s.drafts && s.drafts[id] == d) || Brought(s, e, d)
  {
    match e
    case Propose(m) => ProposalBrings(s, m, id);
    case Vote(v) =>
      VoteMap(s, v);
      if !s.halted && VoteRaises(s, v) {
        UpdateBringsNone(Raised(s, v), v.store, v.formed.value, id);
      }
    case Timeout(t) =>
      TimeoutMap(s, t);
      FormedMap(s, t);
      if !s.halted && t.toProposer && t.formed.Some? && !FirstRaise(s, t).halted {
        UpdateBringsNone(FirstRaise(s, t), t.store, t.formed.value, id);
      }
    case Beat(_, _) =>
    case RoundTimeout(_, _) =>
  }

  /** Over every run of any messages, every draft in the map was there at the start or was brought
      by one of the messages; and so every proposed draft has a round that follows its parent's. */
  lemma {:induction false} RunBrings(s: State, es: seq<Event>, id: Block)
    requires Coherent(s) && id in Run(s, es).drafts
    ensures var d := Run(s, es).drafts[id];
      (id in s.drafts && s.drafts[id] == d) || exists k :: 0 <= k < |es| && Brought(Run(s, es[..k]), es[k], d)
    decreases |es|
  {
    if es != [] {
      var s1, rest := Step(s, es[0]), es[1..];
      var d := Run(s, es).drafts[id];
      StepCoherent(s, es[0]);
      RunBrings(s1, rest, id);
      if id in s1.drafts && s1.drafts[id] == d {
        StepBrings(s, es[0], id);
        assert es[..0] == [];
        assert (id in s.drafts && s.drafts[id] == d) || Brought(Run(s, es[..0]), es[0], d);
      } else {
        var k :| 0 <= k < |rest| && Brought(Run(s1, rest[..k]), rest[k], d);
        assert es[..k + 1][1..] == rest[..k];
        assert Run(s, es[..k + 1]) == Run(s1, rest[..k]);
      }
    }
  }
}
