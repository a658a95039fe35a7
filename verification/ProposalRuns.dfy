/** Runs of all messages: the commit history and the proposal map stay in order as long as every
    commit stays under the last one and the draft it ends at reaches the pruning step. */
module ProposalRuns {
  import opened Blocks
  import opened Drafts
  import opened Pacemaker
  import opened CommitRuns

  // ---------- pruning ----------

  /** Nothing below the committed draft is left, and at its height only itself. */
  predicate Tidy(drafts: map<Block, Draft>, last: Draft) {
    last.block in drafts && drafts[last.block] == last &&
    forall id :: id in drafts ==> id.Number() > last.Height() || id == last.block
  }

  /** A batch in ascending order whose last block reaches the pruning step prunes like that block
      alone and flags it, whatever the others do. */
  lemma {:induction false} OnCommitPrunes(s: State, batch: seq<Commit>)
    requires batch != [] && ReachesPruning(batch[|batch| - 1].draft)
    requires forall i, k :: 0 <= i < k < |batch| ==> batch[i].draft.Height() < batch[k].draft.Height()
    requires var last := batch[|batch| - 1].draft; last.block in s.drafts && s.drafts[last.block] == last
    ensures var last := batch[|batch| - 1].draft;
      OnCommit(s, batch).drafts == PruneDrafts(s.drafts, last) &&
      last.handle in OnCommit(s, batch).flagged &&
      Tidy(OnCommit(s, batch).drafts, last)
    decreases |batch|
  {
    var last := batch[|batch| - 1].draft;
    var d := batch[0].draft;
    var s1 := if ReachesPruning(d) then PruneUpTo(s, d) else s;
    var rest := batch[1..];
    if rest == [] {
      assert OnCommit(s, batch) == OnCommit(s1, rest) == s1;
    } else {
      assert rest[|rest| - 1] == batch[|batch| - 1];
      assert d.Height() < last.Height();
      OnCommitPrunes(s1, rest);
      assert PruneDrafts(s1.drafts, last) == PruneDrafts(s.drafts, last);
    }
  }

  // ---------- the invariant ----------

  /** Draft `d`'s parent, when it lies above the committed height and was not rebuilt from
      the store, is itself in the map. */
  predicate ParentKept(s: State, d: Draft) {
    d.parent.Some? && d.parent.value.Height() > s.lastCommitted.Height() && d.parent.value.parent.Some? ==>
      d.parent.value.block in s.drafts && s.drafts[d.parent.value.block] == d.parent.value
  }

  /** The last committed draft is in the map and flagged; every draft has its uncommitted parent
      in the map. */
  predicate Settled(s: State) {
    s.lastCommitted.handle < s.nextHandle && Committed(s, s.lastCommitted) &&
    s.lastCommitted.block in s.drafts && s.drafts[s.lastCommitted.block] == s.lastCommitted &&
    forall id :: id in s.drafts ==> s.drafts[id].handle < s.nextHandle && ParentKept(s, s.drafts[id])
  }

  lemma AcceptKeepsSettled(s: State, m: Proposal)
    requires Coherent(s) && Settled(s) && Accept(s, m).Some?
    ensures Coherent(AddIfAbsent(s, Accept(s, m).value)) && Settled(AddIfAbsent(s, Accept(s, m).value))
  {
    var d := Accept(s, m).value;
    var s1 := AddIfAbsent(s, d);
    assert ParentKept(s1, d) && Linked(d);
    forall id | id in s1.drafts
      ensures ParentKept(s1, s1.drafts[id])
    {
      assert s1.drafts[id] == d || (id in s.drafts && ParentKept(s, s.drafts[id]));
    }
  }

  /** Between `d` and the last committed draft everything is in the map. */
  lemma {:induction false} PathKept(s: State, d: Draft)
    requires Coherent(s) && Settled(s) && Linked(d) && Under(d, s.lastCommitted)
    requires d.block in s.drafts && s.drafts[d.block] == d
    ensures CommitReady(d, s.lastCommitted.Height()).Some?
    ensures var batch := CommitReady(d, s.lastCommitted.Height()).value;
      forall k :: 0 <= k < |batch| ==>
        var b := batch[k].draft;
        b.block in s.drafts && s.drafts[b.block] == b && b.Height() < d.Height()
  {
    var p := d.parent.value;
    if p != s.lastCommitted {
      UnderExtends(p, s.lastCommitted);
      assert ParentKept(s, d);
      assert p.parent.Some?;
      PathKept(s, p);
    }
  }

  lemma ChainedAscends(anchor: Draft, batch: seq<Commit>)
    requires Chained(anchor, batch)
    requires forall i :: 0 <= i < |batch| ==> Linked(batch[i].draft)
    ensures forall i, k :: 0 <= i < k < |batch| ==> batch[i].draft.Height() < batch[k].draft.Height()
  {
    forall i, k | 0 <= i < k < |batch|
      ensures batch[i].draft.Height() < batch[k].draft.Height()
    {
      CommitChainHeights(anchor, batch, i);
      CommitChainHeights(anchor, batch, k);
    }
  }

  lemma PrunedSettles(s: State, u: State, last: Draft)
    requires Coherent(s) && Settled(s)
    requires last.block in s.drafts && s.drafts[last.block] == last && last.Height() > s.lastCommitted.Height()
    requires u.drafts == PruneDrafts(s.drafts, last) && last.handle in u.flagged
    requires u.lastCommitted == last && u.nextHandle == s.nextHandle
    ensures Settled(u)
  {
    forall id | id in u.drafts
      ensures ParentKept(u, u.drafts[id])
    {
      assert ParentKept(s, s.drafts[id]);
    }
  }

  lemma SettledFrame(s: State, u: State)
    requires Settled(s)
    requires u.drafts == s.drafts && s.flagged <= u.flagged
    requires u.lastCommitted == s.lastCommitted && u.nextHandle >= s.nextHandle
    ensures Settled(u)
  {
    forall id | id in u.drafts
      ensures ParentKept(u, u.drafts[id])
    {
      assert ParentKept(s, s.drafts[id]);
    }
  }

  predicate InMap(s: State, d: Draft) {
    d.block in s.drafts && s.drafts[d.block] == d
  }

  /** The batch of a committing update under the last committed draft: in ascending order,
      in the map, ending at the parent of the certified draft. */
  lemma BatchShape(s: State, d: Draft)
    requires Coherent(s) && Settled(s) && Under(d, s.lastCommitted)
    requires d.block in s.drafts && s.drafts[d.block] == d
    ensures CommitReady(d, s.lastCommitted.Height()).Some?
    ensures var batch := CommitReady(d, s.lastCommitted.Height()).value;
      (forall k :: 0 <= k < |batch| ==> InMap(s, batch[k].draft)) &&
      (forall i, k :: 0 <= i < k < |batch| ==> batch[i].draft.Height() < batch[k].draft.Height()) &&
      Tip(s.lastCommitted, batch) == d.parent.value &&
      (batch != [] ==>
        d.parent.value.block in s.drafts && s.drafts[d.parent.value.block] == d.parent.value &&
        d.parent.value.Height() > s.lastCommitted.Height())
  {
    CommitReadyIsPathIff(d, s.lastCommitted);
    PathKept(s, d);
    CommitReadyLinked(d, s.lastCommitted.Height());
    var batch := CommitReady(d, s.lastCommitted.Height()).value;
    ChainedAscends(s.lastCommitted, batch);
    if batch != [] {
      CommitChainHeights(s.lastCommitted, batch, |batch| - 1);
    }
  }

  /** When the update commits, it ends where it was or at a draft that reaches the pruning step:
      one that was processed, not known before, and does not stop the committee. */
  predicate EndsPruning(s: State, store: Store, qc: QC) {
    Commits(s, store, qc) ==>
      var last := GetByEscortQC(s, store, qc).value.parent.value;
      last == s.lastCommitted || ReachesPruning(last)
  }

  /** A committing update under the last committed draft that ends pruning leaves the map tidy
      around the new one and the replica settled. */
  lemma UpdateSettles(s: State, store: Store, qc: QC)
    requires Coherent(s) && Settled(s) && Commits(s, store, qc) && EndsPruning(s, store, qc)
    requires Under(GetByEscortQC(s, store, qc).value, s.lastCommitted)
    ensures Settled(Update(s, store, qc))
    ensures |Update(s, store, qc).log| > |s.log| ==>
      Tidy(Update(s, store, qc).drafts, Update(s, store, qc).lastCommitted)
  {
    var u := Update(s, store, qc);
    var bPrime := GetByEscortQC(s, store, qc).value;
    UpdateCommits(s, store, qc);
    BatchShape(s, bPrime);
    var batch := CommitReady(bPrime, s.lastCommitted.Height()).value;
    var s1 := UpdateQCHigh(s, DraftQC(qc, Some(bPrime))).(log := s.log + batch);
    assert u == OnCommit(s1, batch).(lastCommitted := bPrime.parent.value);
    if batch == [] {
      SettledFrame(s, u);
    } else {
      OnCommitPrunes(s1, batch);
      PrunedSettles(s, u, bPrime.parent.value);
    }
  }

  // ---------- steps ----------

  /** `u` is where `s` was or further down its own branch, with the map tidied by any commit. */
  predicate Descended(s: State, u: State) {
    (u.lastCommitted == s.lastCommitted || Under(u.lastCommitted, s.lastCommitted)) &&
    (|u.log| > |s.log| ==> Tidy(u.drafts, u.lastCommitted))
  }

  /** An orderly update: its commit stays under the last committed draft and ends pruning. */
  predicate OrderlyUpdate(s: State, store: Store, qc: QC) {
    UpdateGuard(s, store, qc) && EndsPruning(s, store, qc)
  }

  /** Committing or not, it keeps history and map. */
  lemma UpdateStep(base: Draft, s: State, store: Store, qc: QC)
    requires History(base, s) && Settled(s) && OrderlyUpdate(s, store, qc)
    ensures var u := Update(s, store, qc); History(base, u) && Settled(u) && Descended(s, u)
  {
    var u := Update(s, store, qc);
    if Commits(s, store, qc) {
      UpdateDescendsIff(base, s, store, qc);
      UpdateSettles(s, store, qc);
    } else {
      UpdateIdle(s, store, qc);
      SettledFrame(s, u);
      HistoryFrame(base, s, u);
    }
  }

  /** The update a message triggers, if any, is orderly, and a block built on a beat is new. */
  predicate Orderly(s: State, e: Event) {
    s.halted ||
    match e
    case Propose(m) => VotesFor(s, m) ==> OrderlyUpdate(AddIfAbsent(s, Accept(s, m).value), m.store, m.qc)
    case Vote(v) => VoteRaises(s, v) ==> OrderlyUpdate(Raised(s, v), v.store, v.formed.value)
    case Timeout(t) => TimeoutRaises(s, t) ==> OrderlyUpdate(FirstRaise(s, t), t.store, t.formed.value)
    case Beat(epoch, b) => BeatDraft(s, epoch, b).Some? ==> BeatDraft(s, epoch, b).value.block !in s.drafts
    case RoundTimeout(_, _) => true
  }

  /** One proposal of any kind keeps the commit history and the settled map, moves the last
      committed draft only to itself or a descendant, and tidies the map when it commits. */
  lemma ProposalStep(base: Draft, s: State, m: Proposal)
    requires History(base, s) && Settled(s) && Orderly(s, Propose(m))
    ensures var s' := OnReceiveProposal(s, m); History(base, s') && Settled(s') && Descended(s, s')
  {
    if !s.halted && Accept(s, m).Some? {
      AcceptKeepsSettled(s, m);
      AcceptKeepsHistory(base, s, m);
      if VotesFor(s, m) {
        VotingStep(base, s, m);
      }
    }
  }

  lemma VotingStep(base: Draft, s: State, m: Proposal)
    requires History(base, s) && Settled(s) && Orderly(s, Propose(m)) && VotesFor(s, m)
    ensures var s' := OnReceiveProposal(s, m); History(base, s') && Settled(s') && Descended(s, s')
  {
    AcceptKeepsSettled(s, m);
    AcceptKeepsHistory(base, s, m);
    var s1 := AddIfAbsent(s, Accept(s, m).value);
    UpdateStep(base, s1, m.store, m.qc);
    ProposalMap(s, m);
    var u := Update(s1, m.store, m.qc);
    HistoryFrame(base, u, OnReceiveProposal(s, m));
    SettledFrame(u, OnReceiveProposal(s, m));
  }

  /** The vote guard gives a settled replica the guard its update needs. */
  lemma VotedIsGuarded(s: State, m: Proposal)
    requires Coherent(s) && Settled(s) && NamesParent(m) && VotesFor(s, m)
    ensures UpdateGuard(AddIfAbsent(s, Accept(s, m).value), m.store, m.qc)
  {
    if Commits(AddIfAbsent(s, Accept(s, m).value), m.store, m.qc) {
      CommitLeavesLast(s, m);
      ProposalGuardIff(s, m);
    }
  }

  /** A settled replica never commits on the last committed block's own certificate. */
  lemma CommitLeavesLast(s: State, m: Proposal)
    requires Coherent(s) && Settled(s) && NamesParent(m) && VotesFor(s, m)
    requires Commits(AddIfAbsent(s, Accept(s, m).value), m.store, m.qc)
    ensures m.block.parent != s.lastCommitted.block
  {
    var s1 := AddIfAbsent(s, Accept(s, m).value);
    UpdateCommits(s1, m.store, m.qc);
  }

  lemma VoteStep(base: Draft, s: State, v: VoteMsg)
    requires History(base, s) && Settled(s) && Orderly(s, Vote(v))
    ensures var s' := OnReceiveVote(s, v); History(base, s') && Settled(s') && Descended(s, s')
  {
    VoteMap(s, v);
    if !s.halted && VoteRaises(s, v) {
      var s1 := Raised(s, v);
      HistoryFrame(base, s, s1);
      SettledFrame(s, s1);
      UpdateStep(base, s1, v.store, v.formed.value);
      var u := Update(s1, v.store, v.formed.value);
      HistoryFrame(base, u, OnReceiveVote(s, v));
      SettledFrame(u, OnReceiveVote(s, v));
    } else {
      HistoryFrame(base, s, OnReceiveVote(s, v));
      SettledFrame(s, OnReceiveVote(s, v));
    }
  }

  lemma FormedStep(base: Draft, s: State, t: TimeoutMsg)
    requires History(base, s) && Settled(s) && Orderly(s, Timeout(t)) && !s.halted && t.toProposer
    ensures var s' := AfterFormed(s, t); History(base, s') && Settled(s') && Descended(s, s')
  {
    FormedMap(s, t);
    if t.formed.Some? {
      var s1 := FirstRaise(s, t);
      HistoryFrame(base, s, s1);
      SettledFrame(s, s1);
      if !s1.halted {
        UpdateStep(base, s1, t.store, t.formed.value);
      } else {
        HistoryFrame(base, s, AfterFormed(s, t));
        SettledFrame(s, AfterFormed(s, t));
      }
    }
  }

  lemma TimeoutStep(base: Draft, s: State, t: TimeoutMsg)
    requires History(base, s) && Settled(s) && Orderly(s, Timeout(t))
    ensures var s' := OnReceiveTimeout(s, t); History(base, s') && Settled(s') && Descended(s, s')
  {
    TimeoutMap(s, t);
    if !s.halted && t.toProposer {
      FormedStep(base, s, t);
      HistoryFrame(base, AfterFormed(s, t), OnReceiveTimeout(s, t));
      SettledFrame(AfterFormed(s, t), OnReceiveTimeout(s, t));
    }
  }

  lemma BeatStep(base: Draft, s: State, epoch: nat, b: BeatMsg)
    requires History(base, s) && Settled(s) && Orderly(s, Beat(epoch, b))
    ensures var s' := OnBeat(s, epoch, b); History(base, s') && Settled(s') && Descended(s, s')
  {
    var s' := OnBeat(s, epoch, b);
    BeatCoherent(s, epoch, b);
    var built := BeatDraft(s, epoch, b);
    if built.Some? {
      assert ParentKept(s', built.value);
      forall id | id in s'.drafts
        ensures ParentKept(s', s'.drafts[id])
      {
        assert s'.drafts[id] == built.value || (id in s.drafts && ParentKept(s, s.drafts[id]));
      }
    } else {
      SettledFrame(s, s');
    }
  }

  // ---------- runs ----------

  lemma OrderlyStep(base: Draft, s: State, e: Event)
    requires History(base, s) && Settled(s) && Orderly(s, e)
    ensures History(base, Step(s, e)) && Settled(Step(s, e)) && Descended(s, Step(s, e))
  {
    match e
    case Propose(m) => ProposalStep(base, s, m);
    case Vote(v) => VoteStep(base, s, v);
    case Timeout(t) => TimeoutStep(base, s, t);
    case Beat(epoch, b) => BeatStep(base, s, epoch, b);
    case RoundTimeout(_, _) =>
      HistoryFrame(base, s, Step(s, e));
      SettledFrame(s, Step(s, e));
  }

  predicate OrderlyRun(s: State, es: seq<Event>)
    decreases |es|
  {
    es == [] || (Orderly(s, es[0]) && OrderlyRun(Step(s, es[0]), es[1..]))
  }

  /** Over every orderly run of all five kinds of message the concatenated commit batches are
      one gap-free, escorted, parent-linked history, the map stays settled, and the last
      committed block only ever moves to a descendant. */
  lemma {:induction false} OrderlyRunSettles(base: Draft, s: State, es: seq<Event>)
    requires History(base, s) && Settled(s) && OrderlyRun(s, es)
    ensures History(base, Run(s, es)) && Settled(Run(s, es))
    ensures Extends(Run(s, es).lastCommitted.block, s.lastCommitted.block)
    decreases |es|
  {
    if es != [] {
      var s1 := Step(s, es[0]);
      OrderlyStep(base, s, es[0]);
      if s1.lastCommitted != s.lastCommitted {
        UnderExtends(s1.lastCommitted, s.lastCommitted);
      }
      OrderlyRunSettles(base, s1, es[1..]);
      ExtendsTransitive(Run(s, es).lastCommitted.block, s1.lastCommitted.block, s.lastCommitted.block);
    }
  }

  // ---------- proposals that need no guard ----------

  /** Every draft of the map that has a parent would reach the pruning step. */
  predicate AllPrunable(s: State) {
    forall id :: id in s.drafts && s.drafts[id].parent.Some? ==> ReachesPruning(s.drafts[id])
  }

  /** A proposal of an ordinary block that names its parent and, if accepted, was executed. */
  predicate Plain(m: Proposal) {
    NamesParent(m) && !m.block.IsSBlock() && (m.execution == Executed || m.execution == Failed)
  }

  /** For a proposal that names its parent the vote guard sees to the first half: it is orderly
      exactly when its commit ends pruning. */
  lemma ProposalOrderlyIff(s: State, m: Proposal)
    requires Coherent(s) && Settled(s) && NamesParent(m) && VotesFor(s, m)
    ensures Orderly(s, Propose(m)) <==> EndsPruning(AddIfAbsent(s, Accept(s, m).value), m.store, m.qc)
  {
    VotedIsGuarded(s, m);
  }

  lemma PlainIsOrderly(s: State, m: Proposal)
    requires Coherent(s) && Settled(s) && AllPrunable(s) && Plain(m)
    ensures Orderly(s, Propose(m))
  {
    if VotesFor(s, m) {
      var s1 := AddIfAbsent(s, Accept(s, m).value);
      ProposalOrderlyIff(s, m);
      if Commits(s1, m.store, m.qc) {
        VotedIsGuarded(s, m);
        AcceptKeepsSettled(s, m);
        UpdateCommits(s1, m.store, m.qc);
        var bPrime := GetByEscortQC(s1, m.store, m.qc).value;
        BatchShape(s1, bPrime);
        PathEnds(s1, bPrime);
      }
    }
  }

  /** The parent of a draft under the last committed one is that one, or in the map and above it. */
  lemma PathEnds(s: State, d: Draft)
    requires Coherent(s) && Settled(s) && Under(d, s.lastCommitted) && InMap(s, d)
    ensures d.parent.value == s.lastCommitted || (InMap(s, d.parent.value) && d.parent.value.parent.Some?)
  {
    var p := d.parent.value;
    if p != s.lastCommitted {
      UnderExtends(p, s.lastCommitted);
      assert ParentKept(s, d);
    }
  }

  lemma UpdateKeepsPrunable(s: State, store: Store, qc: QC)
    requires AllPrunable(s)
    ensures AllPrunable(Update(s, store, qc))
  {
    if Commits(s, store, qc) {
      var bPrime := GetByEscortQC(s, store, qc).value;
      var batch := CommitReady(bPrime, s.lastCommitted.Height()).value;
      var s1 := UpdateQCHigh(s, DraftQC(qc, Some(bPrime)));
      OnCommitFrame(s1.(log := s1.log + batch), batch);
      assert Update(s, store, qc).drafts == OnCommit(s1.(log := s1.log + batch), batch).drafts;
    } else {
      UpdateIdle(s, store, qc);
    }
  }

  lemma PlainKeepsPrunable(s: State, m: Proposal)
    requires AllPrunable(s) && Plain(m)
    ensures AllPrunable(OnReceiveProposal(s, m))
  {
    if !s.halted && Accept(s, m).Some? {
      var s1 := AddIfAbsent(s, Accept(s, m).value);
      assert AllPrunable(s1);
      UpdateKeepsPrunable(s1, m.store, m.qc);
      if VotesFor(s, m) {
        ProposalMap(s, m);
      }
    }
  }

  /** Ordinary proposals need no guard of their own: any sequence of them is an orderly run. */
  lemma {:induction false} ProposalsAreOrderly(base: Draft, s: State, es: seq<Event>)
    requires History(base, s) && Settled(s) && AllPrunable(s)
    requires forall k :: 0 <= k < |es| ==> es[k].Propose? && Plain(es[k].proposal)
    ensures OrderlyRun(s, es)
    decreases |es|
  {
    if es != [] {
      var m := es[0].proposal;
      PlainIsOrderly(s, m);
      ProposalStep(base, s, m);
      PlainKeepsPrunable(s, m);
      ProposalsAreOrderly(base, Step(s, es[0]), es[1..]);
    }
  }

  // ---------- regulation ----------

  /** A regulation: the draft the best certificate names becomes the last committed one. The
      proposal map and the flags are kept; a missing draft is dereferenced; outside the committee
      the round is not entered. */
  function Regulate(s: State, store: Store, bestQC: QC, actualRound: nat, inCommittee: bool): State {
    match GetByEscortQC(s, store, bestQC)
    case None => s.(halted := true)
    case Some(node) =>
      State(s.drafts[node.block := node], s.flagged, s.nextHandle + 1, node, 0, DraftQC(bestQC, Some(node)),
            if inCommittee then actualRound else 0, Int32(Pred32(actualRound)), [], false)
  }

  /** A regulation of a settled replica, onto a committed draft no lower than the last one,
      starts a new history with a settled map. */
  lemma RegulateSettles(s: State, store: Store, bestQC: QC, actualRound: nat, inCommittee: bool)
    requires Coherent(s) && Settled(s)
    requires var node := GetByEscortQC(s, store, bestQC);
      node.Some? && Committed(s, node.value) && node.value.Height() >= s.lastCommitted.Height()
    ensures var u := Regulate(s, store, bestQC, actualRound, inCommittee);
      History(u.lastCommitted, u) && Settled(u) && u.lastCommitted == GetByEscortQC(s, store, bestQC).value
  {
    var u := Regulate(s, store, bestQC, actualRound, inCommittee);
    var node := u.lastCommitted;
    forall id | id in u.drafts
      ensures ParentKept(u, u.drafts[id])
    {
      if u.drafts[id] != node {
        assert ParentKept(s, s.drafts[id]);
      }
    }
  }

  /** What a regulation leaves: the draft of the best certificate is last committed, in the map and
      paired with that certificate as the highest one; voting height, history and halt are reset; the
      other drafts and the flags stay. */
  lemma RegulateEffect(s: State, store: Store, bestQC: QC, actualRound: nat, inCommittee: bool)
    ensures var u := Regulate(s, store, bestQC, actualRound, inCommittee);
      match GetByEscortQC(s, store, bestQC)
      case None => u.halted
      case Some(node) =>
        u.lastCommitted == node && u.qcHigh == DraftQC(bestQC, Some(node)) && u.lastVotingHeight == 0 && u.log == [] &&
        !u.halted && u.flagged == s.flagged && InMap(u, node) &&
        (forall id :: id in s.drafts && id != node.block ==> id in u.drafts && u.drafts[id] == s.drafts[id]) &&
        u.currentRound == (if inCommittee then actualRound else 0) &&
        (0 < actualRound <= 0x8000_0000 ==> u.lastOnBeatRound == actualRound - 1) &&
        (actualRound == 0 ==> u.lastOnBeatRound == -1)
  {
  }

  /** The regulation of a committee member with an empty map: only the best block's draft, rebuilt from the
      store, is in it. */
  function Regulated(best: Block, carried: QC, bestQC: QC, actualRound: nat): (s: State)
    ensures s.log == [] && s.lastVotingHeight == 0 && s.lastCommitted.block == best && Settled(s)
    ensures bestQC.height == best.Number() ==>
      s == Regulate(s.(drafts := map[], nextHandle := 0), Store(map[best := carried], map[best.Number() := best]),
                    bestQC, actualRound, true)
  {
    var node := Draft(0, best, bestQC.round, carried, None, None, true, Unprocessed);
    State(map[best := node], {}, 1, node, 0, DraftQC(bestQC, Some(node)), actualRound, Int32(Pred32(actualRound)), [], false)
  }

  /** From a regulation on, every orderly run commits one chain on top of the best block. */
  lemma SpanCommitsOneChain(s: State, store: Store, bestQC: QC, round: nat, inCommittee: bool,
                            es: seq<Event>)
    requires Coherent(s) && Settled(s)
    requires var node := GetByEscortQC(s, store, bestQC);
      node.Some? && Committed(s, node.value) && node.value.Height() >= s.lastCommitted.Height()
    requires OrderlyRun(Regulate(s, store, bestQC, round, inCommittee), es)
    ensures var s0 := Regulate(s, store, bestQC, round, inCommittee);
      History(s0.lastCommitted, Run(s0, es)) &&
      Extends(Run(s0, es).lastCommitted.block, GetByEscortQC(s, store, bestQC).value.block)
  {
    var s0 := Regulate(s, store, bestQC, round, inCommittee);
    RegulateSettles(s, store, bestQC, round, inCommittee);
    OrderlyRunSettles(s0.lastCommitted, s0, es);
  }
}
