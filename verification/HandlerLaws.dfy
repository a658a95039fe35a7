/** What each handler does to the state, said in terms of heights, rounds and parent paths rather
    than of its own steps. */
module HandlerLaws {
  import opened Blocks
  import opened Drafts
  import opened Pacemaker
  import opened CommitRuns
  import opened ProposalRuns
  import opened ProtocolOrder
  import opened Acceptance

  // ---------- finding drafts ----------

  predicate Names(qc: QC, d: Draft) {
    d.block.Number() == qc.height && d.round == qc.round && (qc.height == 0 || qc.hash == d.block)
  }

  /** A certificate leads to the draft of the map it names by height, round and hash; when there is
      none, to the trunk block of its height, rebuilt as committed and in the certificate's round. */
  lemma EscortIff(s: State, store: Store, qc: QC)
    requires Coherent(s)
    ensures forall id :: id in s.drafts && Names(qc, s.drafts[id]) ==> GetByEscortQC(s, store, qc) == Some(s.drafts[id])
    ensures (forall id :: id in s.drafts ==> !Names(qc, s.drafts[id])) ==>
      match GetByEscortQC(s, store, qc)
      case Some(d) =>
        qc.height in store.trunk && d.block == store.trunk[qc.height] && d.block in store.blocks &&
        d.block.Number() == qc.height && d.round == qc.round && d.qc == store.blocks[d.block] && d.fromStore && d.parent.None?
      case None =>
        qc.height !in store.trunk || store.trunk[qc.height] !in store.blocks || store.trunk[qc.height].Number() != qc.height
  {
  }

  /** A block that is only stored is rebuilt as a committed draft without a parent, in the round
      after its certificate's. */
  lemma RebuiltDraft(s: State, store: Store, id: Block)
    requires id !in s.drafts
    ensures GetDraft(s, store, id).Some? <==> id in store.blocks
    ensures id in store.blocks ==>
      var d := GetDraft(s, store, id).value;
      d.block == id && d.qc == store.blocks[id] && d.round == (store.blocks[id].round + 1) % 0x1_0000_0000 &&
      d.fromStore && d.parent.None? && d.justify.None?
  {
  }

  /** That is the round of the draft it was exactly when the draft came right after the round of its
      certificate: not after a jump, and not at the start of rounds on a KBlock. */
  lemma RebuiltRoundIff(d: Draft, later: State, store: Store)
    requires d.block !in later.drafts && d.block in store.blocks && store.blocks[d.block] == d.qc
    ensures GetDraft(later, store, d.block).Some?
    ensures GetDraft(later, store, d.block).value.round == d.round <==> d.round == (d.qc.round + 1) % 0x1_0000_0000
  {
    RebuiltDraft(later, store, d.block);
  }

  /** So a block that was proposed without a jump on the block its certificate names comes back in
      the round it was proposed in. */
  lemma RebuiltKeepsRound(s: State, m: Proposal, later: State, store: Store)
    requires Accept(s, m).Some? && !m.tcValid && m.round > 0 && Accept(s, m).value.parent.value.round == m.qc.round
    requires m.block !in later.drafts && m.block in store.blocks && store.blocks[m.block] == m.qc
    ensures GetDraft(later, store, m.block).Some? && GetDraft(later, store, m.block).value.round == m.round
  {
    AcceptIff(s, m);
    RebuiltDraft(later, store, m.block);
  }

  // ---------- commits ----------

  /** Processed without an error, and not a block that stops the committee. */
  predicate Prunable(d: Draft) {
    d.processed == Success && (d.block == Genesis || d.block.kind != SBlock)
  }

  /** Committing a batch keeps exactly the drafts that are above every prunable block of the batch
      or are that block. */
  lemma {:induction false} CommitKeepsIff(s: State, batch: seq<Commit>, id: Block)
    ensures id in OnCommit(s, batch).drafts <==>
      id in s.drafts &&
      forall k :: 0 <= k < |batch| && Prunable(batch[k].draft) ==>
        id.Number() > batch[k].draft.block.Number() || id == batch[k].draft.block
    decreases |batch|
  {
    if batch != [] {
      var d, rest := batch[0].draft, batch[1..];
      CommitKeepsIff(if ReachesPruning(d) then PruneUpTo(s, d) else s, rest, id);
      assert forall k :: 0 <= k < |rest| ==> rest[k] == batch[k + 1];
      assert forall k :: 0 < k < |batch| ==> batch[k] == rest[k - 1];
    }
  }

  /** And it flags exactly the prunable blocks of an ascending batch of drafts of the map. */
  lemma {:induction false} CommitFlagsIff(s: State, batch: seq<Commit>, h: nat)
    requires forall k :: 0 <= k < |batch| ==> InMap(s, batch[k].draft)
    requires forall i, k :: 0 <= i < k < |batch| ==> batch[i].draft.Height() < batch[k].draft.Height()
    ensures h in OnCommit(s, batch).flagged <==>
      h in s.flagged || exists k :: 0 <= k < |batch| && Prunable(batch[k].draft) && batch[k].draft.handle == h
    decreases |batch|
  {
    if batch != [] {
      var d, rest := batch[0].draft, batch[1..];
      var s1 := if ReachesPruning(d) then PruneUpTo(s, d) else s;
      assert forall k :: 0 <= k < |rest| ==> rest[k] == batch[k + 1];
      CommitFlagsIff(s1, rest, h);
      if k :| 0 <= k < |rest| && Prunable(rest[k].draft) && rest[k].draft.handle == h {
        assert batch[k + 1] == rest[k];
      }
      if k :| 0 <= k < |batch| && Prunable(batch[k].draft) && batch[k].draft.handle == h {
        assert k > 0 ==> rest[k - 1] == batch[k];
      }
    }
  }

  /** `child` lies on the parent path that starts at `d`. */
  ghost predicate OnPath(d: Draft, child: Draft) {
    child == d || Under(d, child)
  }

  lemma {:induction false} ReadyIff(d: Draft, floor: nat, c: Commit)
    requires Linked(d) && CommitReady(d, floor).Some?
    ensures c in CommitReady(d, floor).value <==>
      c.draft.Height() > floor && exists child :: OnPath(d, child) && child.parent == Some(c.draft) && child.qc == c.escortQC
  {
    var p := d.parent.value;
    if p.Height() > floor {
      ReadyIff(p, floor, c);
      var rest := CommitReady(p, floor).value;
      assert CommitReady(d, floor).value == rest + [Commit(p, d.qc)];
      if child :| OnPath(d, child) && child.parent == Some(c.draft) && child.qc == c.escortQC {
        if child == d {
          assert c == Commit(p, d.qc);
        } else {
          assert OnPath(p, child);
        }
      }
      if child :| OnPath(p, child) && child.parent == Some(c.draft) && child.qc == c.escortQC {
        assert OnPath(d, child);
      }
      if c == Commit(p, d.qc) {
        assert OnPath(d, d);
      }
    } else if child :| OnPath(d, child) && child.parent == Some(c.draft) {
      if child != d {
        UnderExtends(d, child);
        ChildHeights(d, child);
      }
    }
  }

  lemma {:induction false} ChildHeights(d: Draft, child: Draft)
    requires Linked(d) && Under(d, child) && child.parent.Some?
    ensures child.parent.value.Height() < d.parent.value.Height()
  {
    if d.parent.value != child {
      ChildHeights(d.parent.value, child);
      UnderExtends(d, d.parent.value);
    } else {
      assert Linked(child);
    }
  }

  /** The two-chain rule: a certificate for an uncommitted draft that sits on the draft its own
      certificate was paired with passes on exactly the drafts above the last committed height on
      the path below the certified one, each with the certificate its child on the path carries. */
  lemma CommittedNowIff(s: State, store: Store, qc: QC, c: Commit)
    requires Coherent(s) && Commits(s, store, qc)
    ensures var u := Update(s, store, qc);
      var d := GetByEscortQC(s, store, qc).value;
      s.log <= u.log && u.lastCommitted == d.parent.value &&
      (c in u.log[|s.log|..] <==>
        c.draft.Height() > s.lastCommitted.Height() &&
        exists child :: OnPath(d, child) && child.parent == Some(c.draft) && child.qc == c.escortQC)
  {
    UpdateCommits(s, store, qc);
    var d := GetByEscortQC(s, store, qc).value;
    ReadyIff(d, s.lastCommitted.Height(), c);
    var batch := CommitReady(d, s.lastCommitted.Height()).value;
    assert (s.log + batch)[|s.log|..] == batch;
  }

  // ---------- rounds ----------

  /** The round after leaving `left` in round `current`: the next one in 32 bits, unless that is
      behind and not 0. */
  function RoundAfter(current: nat, left: nat): nat {
    var next := (left + 1) % 0x1_0000_0000;
    if next == 0 || next >= current then next else current
  }

  /** Every message leaves the round alone or goes on from the round it is about. */
  lemma StepRound(s: State, e: Event)
    ensures Step(s, e).currentRound ==
      match LeftRound(s, e) case None => s.currentRound case Some(left) => RoundAfter(s.currentRound, left)
  {
    match e
    case Propose(m) => ProposalLeaves(s, m);
    case Vote(v) => VoteLeaves(s, v);
    case Timeout(t) => TimeoutKeepsRound(s, t);
    case Beat(_, _) =>
    case RoundTimeout(_, _) =>
  }

  /** A replica leaves a round for its own timer exactly inside the committee, for a proposal exactly
      when it votes, and for a vote exactly when that raises its highest certificate; and never when
      it halts. */
  lemma LeavesRoundIff(s: State, e: Event)
    ensures LeftRound(s, e).Some? <==>
      !s.halted && !Step(s, e).halted &&
      ((e.RoundTimeout? && e.inCommittee) || (e.Propose? && VotesFor(s, e.proposal)) || (e.Vote? && VoteRaises(s, e.vote)))
    ensures LeftRound(s, e).Some? ==>
      LeftRound(s, e).value == if e.RoundTimeout? then e.round else if e.Propose? then e.proposal.round else e.vote.round
  {
  }

  // ---------- proposals ----------

  /** A proposal that is not accepted changes nothing; one that is accepted adds its draft unless
      the block has one, and on a vote raises the voting height to it; nothing else of the voter's
      own counters moves. */
  lemma ProposalOutcome(s: State, m: Proposal)
    ensures var u := OnReceiveProposal(s, m);
      (s.halted || Accept(s, m).None? ==> u == s) &&
      u.lastOnBeatRound == s.lastOnBeatRound &&
      (VotesFor(s, m) && !u.halted ==> u.lastVotingHeight == m.block.Number()) &&
      (!VotesFor(s, m) ==>
        u.lastVotingHeight == s.lastVotingHeight && u.lastCommitted == s.lastCommitted && u.qcHigh == s.qcHigh) &&
      (!s.halted && Accept(s, m).Some? && !VotesFor(s, m) ==>
        (forall id :: id in u.drafts <==> id in s.drafts || id == m.block) &&
        forall id :: id in s.drafts ==> u.drafts[id] == s.drafts[id]) &&
      (!s.halted && Accept(s, m).Some? && !VotesFor(s, m) && m.block !in s.drafts ==>
        u.drafts[m.block] == Accept(s, m).value)
  {
    if VotesFor(s, m) {
      var s1 := AddIfAbsent(s, Accept(s, m).value);
      if Commits(s1, m.store, m.qc) {
        UpdateCommits(s1, m.store, m.qc);
      } else {
        UpdateIdle(s1, m.store, m.qc);
      }
    }
  }

  // ---------- votes ----------

  /** A vote counts as long as its round is at most one behind; in round 0 only for that round or
      the last 32-bit one. */
  predicate InTime(current: nat, round: nat) {
    if current == 0 then round == 0 || round == 0xFFFF_FFFF else round + 1 >= current
  }

  lemma InTimeIff(s: State, round: nat)
    requires s.currentRound < 0x1_0000_0000 && round < 0x1_0000_0000
    ensures OutdatedVote(s, round) <==> !InTime(s.currentRound, round)
  {
  }

  /** A vote raises the highest certificate exactly when it is in time, meant for this replica as
      the next proposer, for a draft held in that round, and completes a certificate above the
      highest one by height, then round. */
  lemma VoteRaisesIff(s: State, v: VoteMsg)
    requires Consistent(s.qcHigh) && s.qcHigh.node.Some?
    requires s.currentRound < 0x1_0000_0000 && v.round < 0x1_0000_0000
    ensures VoteRaises(s, v) <==>
      InTime(s.currentRound, v.round) && v.toNextProposer && v.formed.Some? &&
      GetDraft(s, v.store, v.block).Some? && GetDraft(s, v.store, v.block).value.round == v.round &&
      QCBelow(s.qcHigh.qc, v.formed.value)
  {
    InTimeIff(s, v.round);
    if v.formed.Some? && GetDraft(s, v.store, v.block).Some? {
      ReplacesIffHigher(s.qcHigh, DraftQC(v.formed.value, GetDraft(s, v.store, v.block)));
    }
  }

  /** A vote that does not raise it changes nothing; one that does makes its certificate, or the same
      one paired again, the highest, and leaves the replica's own counters but the round. */
  lemma VoteOutcome(s: State, v: VoteMsg)
    requires Coherent(s) && Consistent(s.qcHigh) && s.qcHigh.node.Some? && !s.halted && Regular(Vote(v))
    ensures var u := OnReceiveVote(s, v);
      (!VoteRaises(s, v) ==> u == s) &&
      (VoteRaises(s, v) ==> u.qcHigh.qc == v.formed.value) &&
      u.lastVotingHeight == s.lastVotingHeight && u.lastOnBeatRound == s.lastOnBeatRound
  {
    var cand := DraftQC(if v.formed.Some? then v.formed.value else s.qcHigh.qc, GetDraft(s, v.store, v.block));
    if cand.node.Some? {
      ReplacesIffHigher(s.qcHigh, cand);
    }
    if VoteRaises(s, v) {
      var s1 := Raised(s, v);
      if Commits(s1, v.store, v.formed.value) {
        UpdateCommits(s1, v.store, v.formed.value);
      } else {
        UpdateIdle(s1, v.store, v.formed.value);
      }
      UpdateForward(s1, v.store, v.formed.value);
      UpdateRaisesTo(s1, v.store, v.formed.value);
    }
  }

  /** An update leaves the highest certificate or puts the given one there. */
  lemma UpdateRaisesTo(s: State, store: Store, qc: QC)
    ensures Update(s, store, qc).qcHigh.qc == s.qcHigh.qc || Update(s, store, qc).qcHigh.qc == qc
  {
    if Commits(s, store, qc) {
      var d := GetByEscortQC(s, store, qc);
      var s1 := UpdateQCHigh(s, DraftQC(qc, d));
      var batch := CommitReady(d.value, s.lastCommitted.Height()).value;
      OnCommitFrame(s1.(log := s1.log + batch), batch);
    }
  }

  // ---------- timeouts ----------

  /** The highest certificate after a raise is the old one or the new one, and not below the new one
      when that is paired. */
  lemma RaiseOutcome(s: State, cand: DraftQC)
    requires Consistent(s.qcHigh) && !UpdateQCHigh(s, cand).halted
    ensures var u := UpdateQCHigh(s, cand);
      (u.qcHigh == s.qcHigh || u.qcHigh == cand) && (cand.node.Some? ==> !QCBelow(u.qcHigh.qc, cand.qc)) &&
      !QCBelow(u.qcHigh.qc, s.qcHigh.qc) && u == s.(qcHigh := u.qcHigh)
  {
  }

  /** A timeout message not meant for this replica changes nothing. Otherwise the highest certificate
      afterwards is the old one, the one completed or the sender's, and below neither the old one nor
      the sender's if that names a draft; rounds and voting height stay. */
  lemma TimeoutOutcome(s: State, t: TimeoutMsg)
    requires Coherent(s) && Consistent(s.qcHigh)
    ensures var u := OnReceiveTimeout(s, t);
      (s.halted || !t.toProposer ==> u == s) &&
      u.currentRound == s.currentRound && u.lastVotingHeight == s.lastVotingHeight && u.lastOnBeatRound == s.lastOnBeatRound &&
      (!s.halted && t.toProposer && !u.halted ==>
        (u.qcHigh.qc == s.qcHigh.qc || u.qcHigh.qc == t.qcHigh || (t.formed.Some? && u.qcHigh.qc == t.formed.value)) &&
        !QCBelow(u.qcHigh.qc, s.qcHigh.qc) &&
        (GetByEscortQC(AfterFormed(s, t), t.store, t.qcHigh).Some? ==> !QCBelow(u.qcHigh.qc, t.qcHigh)))
  {
    TimeoutKeepsRound(s, t);
    TimeoutForward(s, t);
    if !s.halted && t.toProposer {
      FormedForward(s, t);
      FormedRaisesTo(s, t);
      var s1 := AfterFormed(s, t);
      if !OnReceiveTimeout(s, t).halted {
        RaiseOutcome(s1, DraftQC(t.qcHigh, GetByEscortQC(s1, t.store, t.qcHigh)));
      }
    }
  }

  lemma FormedRaisesTo(s: State, t: TimeoutMsg)
    ensures var u := AfterFormed(s, t);
      (u.qcHigh.qc == s.qcHigh.qc || (t.formed.Some? && u.qcHigh.qc == t.formed.value)) &&
      u.lastVotingHeight == s.lastVotingHeight && u.lastOnBeatRound == s.lastOnBeatRound
  {
    if t.formed.Some? {
      var s1 := FirstRaise(s, t);
      UpdateRaisesTo(s1, t.store, t.formed.value);
      if Commits(s1, t.store, t.formed.value) {
        UpdateCommits(s1, t.store, t.formed.value);
      } else {
        UpdateIdle(s1, t.store, t.formed.value);
      }
    }
  }

  /** And the completed certificate takes effect: below it the highest certificate does not stay, and
      what it commits is committed. */
  lemma TimeoutCommits(s: State, t: TimeoutMsg)
    requires Coherent(s) && Consistent(s.qcHigh) && !s.halted && t.toProposer && t.formed.Some?
    requires !OnReceiveTimeout(s, t).halted && GetByEscortQC(s, t.store, t.formed.value).Some?
    ensures !QCBelow(OnReceiveTimeout(s, t).qcHigh.qc, t.formed.value)
    ensures Commits(FirstRaise(s, t), t.store, t.formed.value) ==>
      var d := GetByEscortQC(FirstRaise(s, t), t.store, t.formed.value).value;
      OnReceiveTimeout(s, t).lastCommitted == d.parent.value &&
      OnReceiveTimeout(s, t).log == s.log + CommitReady(d, s.lastCommitted.Height()).value
  {
    var cand := DraftQC(t.formed.value, GetByEscortQC(s, t.store, t.formed.value));
    RaiseOutcome(s, cand);
    var s1 := FirstRaise(s, t);
    UpdateForward(s1, t.store, t.formed.value);
    var s2 := AfterFormed(s, t);
    RaiseOutcome(s2, DraftQC(t.qcHigh, GetByEscortQC(s2, t.store, t.qcHigh)));
    TimeoutCore(s, t);
    if Commits(s1, t.store, t.formed.value) {
      UpdateCommits(s1, t.store, t.formed.value);
    }
  }

  // ---------- beats ----------

  function Signed32(round: nat): int
    requires round < 0x1_0000_0000
  {
    if round >= 0x8000_0000 then round - 0x1_0000_0000 else round
  }

  /** The beat is for this epoch or a later one, for a round above the last one beaten in this epoch,
      and finds this replica the proposer. */
  predicate Due(s: State, curEpoch: nat, b: BeatMsg)
    requires b.round < 0x1_0000_0000
  {
    !s.halted && b.amProposer && (b.epoch > curEpoch || (b.epoch == curEpoch && Signed32(b.round) > s.lastOnBeatRound))
  }

  /** A beat that is not due changes nothing. One that is due marks its round, and adds a block exactly
      when one could be built and the highest certificate leads to a draft: a child of that draft,
      with the chosen contents, carrying that certificate, in the beat's round. */
  lemma BeatOutcome(s: State, curEpoch: nat, b: BeatMsg)
    requires b.round < 0x1_0000_0000
    ensures var u := OnBeat(s, curEpoch, b);
      (!Due(s, curEpoch, b) ==> u == s) &&
      (Due(s, curEpoch, b) ==>
        u.lastOnBeatRound == Signed32(b.round) &&
        match GetByEscortQC(s, b.store, s.qcHigh.qc)
        case None => u == s.(lastOnBeatRound := u.lastOnBeatRound)
        case Some(p) =>
          if b.leaf.None? then u == s.(lastOnBeatRound := u.lastOnBeatRound)
          else
            var id := Block(p.block, b.leaf.value.kind, b.leaf.value.txs, b.leaf.value.salt);
            id in u.drafts && (forall other :: other in s.drafts && other != id ==>
              other in u.drafts && u.drafts[other] == s.drafts[other]) &&
            (forall other :: other in u.drafts ==> other in s.drafts || other == id) &&
            var d := u.drafts[id];
            d.block == id && d.parent == Some(p) && d.justify == s.qcHigh.node && d.qc == s.qcHigh.qc &&
            d.round == b.round && d.processed == Success && !d.fromStore &&
            u == s.(lastOnBeatRound := u.lastOnBeatRound, drafts := u.drafts, nextHandle := u.nextHandle))
  {
  }
}
