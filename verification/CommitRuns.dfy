/** What every run of a replica's handlers keeps: the commit history, the proposal map
    and the monotone parts of the protocol state. */
module CommitRuns {
  import opened Blocks
  import opened Drafts
  import opened Pacemaker

  // ---------- framing ----------

  /** Committing touches only the proposal map and the committed flags. */
  lemma {:induction false} OnCommitFrame(s: State, batch: seq<Commit>)
    ensures OnCommit(s, batch) == s.(drafts := OnCommit(s, batch).drafts, flagged := OnCommit(s, batch).flagged)
    ensures s.flagged <= OnCommit(s, batch).flagged
    ensures forall id :: id in OnCommit(s, batch).drafts ==>
      id in s.drafts && OnCommit(s, batch).drafts[id] == s.drafts[id]
    decreases |batch|
  {
    if batch != [] {
      var d := batch[0].draft;
      OnCommitFrame(if ReachesPruning(d) then PruneUpTo(s, d) else s, batch[1..]);
    }
  }

  // ---------- invariants ----------

  /** The proposal map is keyed by block and parent pointers agree with identifiers. */
  predicate Coherent(s: State) {
    Linked(s.lastCommitted) &&
    forall id :: id in s.drafts ==> s.drafts[id].block == id && Linked(s.drafts[id])
  }

  /** The commit history so far: gap-free from `base` and ending at the last committed draft. */
  ghost predicate History(base: Draft, s: State) {
    Coherent(s) && CommitChain(base, s.log) && Tip(base, s.log) == s.lastCommitted &&
    forall k :: 0 <= k < |s.log| ==> Linked(s.log[k].draft)
  }

  /** A certificate that makes `Update` pass a batch on for commit. */
  predicate Commits(s: State, store: Store, qc: QC) {
    var r := GetByEscortQC(s, store, qc);
    r.Some? && !Committed(s, r.value) && r.value.justify.Some? && r.value.parent == r.value.justify &&
    !UpdateQCHigh(s, DraftQC(qc, r)).halted &&
    CommitReady(r.value, s.lastCommitted.Height()).Some?
  }

  /** Unless it commits, an update leaves the history alone. */
  lemma UpdateIdle(s: State, store: Store, qc: QC)
    requires !Commits(s, store, qc)
    ensures var u := Update(s, store, qc);
      u == s.(qcHigh := u.qcHigh, halted := u.halted)
  {
  }

  lemma {:induction false} CommitReadyLinked(d: Draft, floor: nat)
    requires Linked(d) && CommitReady(d, floor).Some?
    ensures forall k :: 0 <= k < |CommitReady(d, floor).value| ==>
      Linked(CommitReady(d, floor).value[k].draft)
  {
    if d.parent.value.Height() > floor {
      CommitReadyLinked(d.parent.value, floor);
    }
  }

  lemma UpdateCommits(s: State, store: Store, qc: QC)
    requires Commits(s, store, qc)
    ensures var u := Update(s, store, qc);
      var bPrime := GetByEscortQC(s, store, qc).value;
      var batch := CommitReady(bPrime, s.lastCommitted.Height()).value;
      u.log == s.log + batch && u.lastCommitted == bPrime.parent.value &&
      u == s.(qcHigh := u.qcHigh, drafts := u.drafts, flagged := u.flagged, log := u.log,
              lastCommitted := u.lastCommitted)
    ensures EscortKey(qc) in s.drafts && GetByEscortQC(s, store, qc).value == s.drafts[EscortKey(qc)]
  {
    var bPrime := GetByEscortQC(s, store, qc).value;
    var s1 := UpdateQCHigh(s, DraftQC(qc, Some(bPrime)));
    var batch := CommitReady(bPrime, s.lastCommitted.Height()).value;
    OnCommitFrame(s1.(log := s1.log + batch), batch);
  }

  lemma UpdateCoherent(s: State, store: Store, qc: QC)
    requires Coherent(s)
    ensures Coherent(Update(s, store, qc))
  {
    if Commits(s, store, qc) {
      UpdateCommits(s, store, qc);
      var bPrime := GetByEscortQC(s, store, qc).value;
      var s1 := UpdateQCHigh(s, DraftQC(qc, Some(bPrime)));
      var batch := CommitReady(bPrime, s.lastCommitted.Height()).value;
      OnCommitFrame(s1.(log := s1.log + batch), batch);
      assert Update(s, store, qc).drafts == OnCommit(s1.(log := s1.log + batch), batch).drafts;
    } else {
      UpdateIdle(s, store, qc);
    }
  }

  /** A committing update moves the last committed draft to itself or a descendant, and
      extends the commit history, exactly when the certified draft lies under it. */
  lemma UpdateDescendsIff(base: Draft, s: State, store: Store, qc: QC)
    requires History(base, s) && Commits(s, store, qc)
    ensures var u := Update(s, store, qc);
      var under := Under(GetByEscortQC(s, store, qc).value, s.lastCommitted);
      (under <==> u.lastCommitted == s.lastCommitted || Under(u.lastCommitted, s.lastCommitted)) &&
      (under <==> History(base, u))
  {
    UpdateCommits(s, store, qc);
    var u := Update(s, store, qc);
    var bPrime := GetByEscortQC(s, store, qc).value;
    var batch := CommitReady(bPrime, s.lastCommitted.Height()).value;
    CommitReadyIsPathIff(bPrime, s.lastCommitted);
    var s1 := UpdateQCHigh(s, DraftQC(qc, Some(bPrime)));
    OnCommitFrame(s1.(log := s1.log + batch), batch);
    if Under(bPrime, s.lastCommitted) {
      CommitReadyLinked(bPrime, s.lastCommitted.Height());
      CommitChainConcat(base, s.log, batch);
      assert Linked(bPrime.parent.value);
    } else if History(base, u) {
      CommitChainSplit(base, s.log, batch);
      assert false;
    }
  }

  // ---------- coherence over runs of all handlers ----------

  lemma AcceptCoherent(s: State, m: Proposal)
    requires Coherent(s) && Accept(s, m).Some?
    ensures Coherent(AddIfAbsent(s, Accept(s, m).value))
  {
    assert Linked(Accept(s, m).value);
  }

  lemma BeatCoherent(s: State, epoch: nat, b: BeatMsg)
    requires Coherent(s)
    ensures Coherent(OnBeat(s, epoch, b))
  {
    var s' := OnBeat(s, epoch, b);
    forall id | id in s'.drafts
      ensures s'.drafts[id].block == id && Linked(s'.drafts[id])
    {
    }
  }

  /** The parts of the state that commits are about. */
  predicate SameCore(s: State, t: State) {
    s.drafts == t.drafts && s.lastCommitted == t.lastCommitted && s.log == t.log
  }

  lemma ProposalCore(s: State, m: Proposal)
    requires !s.halted
    ensures Accept(s, m).None? ==> SameCore(OnReceiveProposal(s, m), s)
    ensures Accept(s, m).Some? && !VotesFor(s, m) ==> SameCore(OnReceiveProposal(s, m), AddIfAbsent(s, Accept(s, m).value))
    ensures Accept(s, m).Some? && VotesFor(s, m) ==>
      SameCore(OnReceiveProposal(s, m), Update(AddIfAbsent(s, Accept(s, m).value), m.store, m.qc))
  {
  }

  lemma VoteCore(s: State, v: VoteMsg)
    ensures !VoteRaises(s, v) ==> SameCore(OnReceiveVote(s, v), s)
    ensures VoteRaises(s, v) ==> SameCore(OnReceiveVote(s, v), Update(Raised(s, v), v.store, v.formed.value))
  {
  }

  predicate TimeoutRaises(s: State, t: TimeoutMsg) {
    t.toProposer && t.formed.Some? && !FirstRaise(s, t).halted
  }

  lemma TimeoutCore(s: State, t: TimeoutMsg)
    ensures !TimeoutRaises(s, t) ==> SameCore(OnReceiveTimeout(s, t), s)
    ensures TimeoutRaises(s, t) ==> SameCore(OnReceiveTimeout(s, t), Update(FirstRaise(s, t), t.store, t.formed.value))
  {
  }

  /** `u` has the same map, flags and history as `s`, and has allocated no less. */
  predicate SameMap(s: State, u: State) {
    SameCore(s, u) && s.flagged == u.flagged && s.nextHandle <= u.nextHandle
  }

  lemma ProposalMap(s: State, m: Proposal)
    requires VotesFor(s, m)
    ensures SameMap(Update(AddIfAbsent(s, Accept(s, m).value), m.store, m.qc), OnReceiveProposal(s, m))
  {
  }

  lemma VoteMap(s: State, v: VoteMsg)
    ensures s.halted || !VoteRaises(s, v) ==> SameMap(s, OnReceiveVote(s, v))
    ensures !s.halted && VoteRaises(s, v) ==>
      SameMap(s, Raised(s, v)) && SameMap(Update(Raised(s, v), v.store, v.formed.value), OnReceiveVote(s, v))
  {
  }

  lemma TimeoutMap(s: State, t: TimeoutMsg)
    ensures s.halted || !t.toProposer ==> OnReceiveTimeout(s, t) == s
    ensures !s.halted && t.toProposer ==> SameMap(AfterFormed(s, t), OnReceiveTimeout(s, t))
  {
  }

  lemma FormedMap(s: State, t: TimeoutMsg)
    ensures t.formed.None? ==> AfterFormed(s, t) == s
    ensures t.formed.Some? ==> SameMap(s, FirstRaise(s, t))
    ensures t.formed.Some? && FirstRaise(s, t).halted ==> SameMap(s, AfterFormed(s, t))
    ensures t.formed.Some? && !FirstRaise(s, t).halted ==>
      AfterFormed(s, t) == Update(FirstRaise(s, t), t.store, t.formed.value)
  {
  }

  lemma ProposalCoherent(s: State, m: Proposal)
    requires Coherent(s)
    ensures Coherent(OnReceiveProposal(s, m))
  {
    if !s.halted && Accept(s, m).Some? {
      ProposalCore(s, m);
      AcceptCoherent(s, m);
      UpdateCoherent(AddIfAbsent(s, Accept(s, m).value), m.store, m.qc);
    }
  }

  lemma VoteCoherent(s: State, v: VoteMsg)
    requires Coherent(s)
    ensures Coherent(OnReceiveVote(s, v))
  {
    VoteCore(s, v);
    if VoteRaises(s, v) {
      UpdateCoherent(Raised(s, v), v.store, v.formed.value);
    }
  }

  lemma TimeoutCoherent(s: State, t: TimeoutMsg)
    requires Coherent(s)
    ensures Coherent(OnReceiveTimeout(s, t))
  {
    TimeoutCore(s, t);
    if TimeoutRaises(s, t) {
      UpdateCoherent(FirstRaise(s, t), t.store, t.formed.value);
    }
  }

  /** Every message keeps the proposal map keyed by block and linked by identifiers. */
  lemma StepCoherent(s: State, e: Event)
    requires Coherent(s)
    ensures Coherent(Step(s, e))
  {
    match e
    case Propose(m) => ProposalCoherent(s, m);
    case Vote(v) => VoteCoherent(s, v);
    case Timeout(t) => TimeoutCoherent(s, t);
    case Beat(epoch, b) => BeatCoherent(s, epoch, b);
    case RoundTimeout(_, _) =>
  }

  // ---------- commit history over runs of all handlers ----------

  /** The guard on one update: a committing certificate names a draft under the last
      committed one. */
  predicate UpdateGuard(s: State, store: Store, qc: QC) {
    Commits(s, store, qc) ==> Under(GetByEscortQC(s, store, qc).value, s.lastCommitted)
  }

  /** The guard on the update a message triggers, if any. */
  predicate Guarded(s: State, e: Event) {
    s.halted ||
    match e
    case Propose(m) => VotesFor(s, m) ==> UpdateGuard(AddIfAbsent(s, Accept(s, m).value), m.store, m.qc)
    case Vote(v) =>
      VoteRaises(s, v) ==> UpdateGuard(Raised(s, v), v.store, v.formed.value)
    case Timeout(t) => TimeoutRaises(s, t) ==> UpdateGuard(FirstRaise(s, t), t.store, t.formed.value)
    case Beat(_, _) => true
    case RoundTimeout(_, _) => true
  }

  predicate VoteRaises(s: State, v: VoteMsg) {
    !OutdatedVote(s, v.round) && v.toNextProposer && GetDraft(s, v.store, v.block).Some? &&
    GetDraft(s, v.store, v.block).value.round == v.round && v.formed.Some? &&
    JudgeQC(s.qcHigh, DraftQC(v.formed.value, GetDraft(s, v.store, v.block))) == Replace
  }

  function Raised(s: State, v: VoteMsg): State
    requires v.formed.Some?
  {
    s.(qcHigh := DraftQC(v.formed.value, GetDraft(s, v.store, v.block)), nextHandle := s.nextHandle + 1)
  }

  function FirstRaise(s: State, t: TimeoutMsg): State
    requires t.formed.Some?
  {
    UpdateQCHigh(s, DraftQC(t.formed.value, GetByEscortQC(s, t.store, t.formed.value)))
      .(nextHandle := s.nextHandle + 1)
  }

  lemma UpdateKeepsHistoryIff(base: Draft, s: State, store: Store, qc: QC)
    requires History(base, s)
    ensures History(base, Update(s, store, qc)) <==> UpdateGuard(s, store, qc)
  {
    if Commits(s, store, qc) {
      UpdateDescendsIff(base, s, store, qc);
    } else {
      UpdateIdle(s, store, qc);
    }
  }

  /** The history lives in the proposal map, the last committed draft and the log. */
  lemma HistoryFrame(base: Draft, s: State, t: State)
    requires SameCore(s, t)
    ensures History(base, s) <==> History(base, t)
  {
  }

  lemma AcceptKeepsHistory(base: Draft, s: State, m: Proposal)
    requires History(base, s) && Accept(s, m).Some?
    ensures History(base, AddIfAbsent(s, Accept(s, m).value))
  {
    AcceptCoherent(s, m);
  }

  lemma ProposalKeepsHistoryIff(base: Draft, s: State, m: Proposal)
    requires History(base, s) && !s.halted
    ensures History(base, OnReceiveProposal(s, m)) <==> Guarded(s, Propose(m))
  {
    ProposalCore(s, m);
    if Accept(s, m).None? {
      HistoryFrame(base, s, OnReceiveProposal(s, m));
    } else {
      var s1 := AddIfAbsent(s, Accept(s, m).value);
      AcceptKeepsHistory(base, s, m);
      if VotesFor(s, m) {
        UpdateKeepsHistoryIff(base, s1, m.store, m.qc);
        HistoryFrame(base, Update(s1, m.store, m.qc), OnReceiveProposal(s, m));
      } else {
        HistoryFrame(base, s1, OnReceiveProposal(s, m));
      }
    }
  }

  lemma VoteKeepsHistoryIff(base: Draft, s: State, v: VoteMsg)
    requires History(base, s) && !s.halted
    ensures History(base, OnReceiveVote(s, v)) <==> Guarded(s, Vote(v))
  {
    VoteCore(s, v);
    if VoteRaises(s, v) {
      var s1 := Raised(s, v);
      HistoryFrame(base, s, s1);
      UpdateKeepsHistoryIff(base, s1, v.store, v.formed.value);
      HistoryFrame(base, Update(s1, v.store, v.formed.value), OnReceiveVote(s, v));
    } else {
      HistoryFrame(base, s, OnReceiveVote(s, v));
    }
  }

  lemma TimeoutKeepsHistoryIff(base: Draft, s: State, t: TimeoutMsg)
    requires History(base, s) && !s.halted
    ensures History(base, OnReceiveTimeout(s, t)) <==> Guarded(s, Timeout(t))
  {
    TimeoutCore(s, t);
    if TimeoutRaises(s, t) {
      var s1 := FirstRaise(s, t);
      HistoryFrame(base, s, s1);
      UpdateKeepsHistoryIff(base, s1, t.store, t.formed.value);
      HistoryFrame(base, Update(s1, t.store, t.formed.value), OnReceiveTimeout(s, t));
    } else {
      HistoryFrame(base, s, OnReceiveTimeout(s, t));
    }
  }

  /** Every message keeps the commit history gap-free, parent-linked and escorted exactly
      when the update it triggers is guarded. */
  lemma StepKeepsHistoryIff(base: Draft, s: State, e: Event)
    requires History(base, s)
    ensures History(base, Step(s, e)) <==> Guarded(s, e)
  {
    if !s.halted {
      match e
      case Propose(m) => ProposalKeepsHistoryIff(base, s, m);
      case Vote(v) => VoteKeepsHistoryIff(base, s, v);
      case Timeout(t) => TimeoutKeepsHistoryIff(base, s, t);
      case Beat(epoch, b) => BeatCoherent(s, epoch, b);
      case RoundTimeout(_, _) => HistoryFrame(base, s, Step(s, e));
    }
  }

  predicate GuardedRun(s: State, es: seq<Event>)
    decreases |es|
  {
    es == [] || (Guarded(s, es[0]) && GuardedRun(Step(s, es[0]), es[1..]))
  }

  /** Over every guarded run of any messages the concatenated commit batches stay one
      commit history ending at the last committed draft. */
  lemma {:induction false} RunKeepsHistory(base: Draft, s: State, es: seq<Event>)
    requires History(base, s) && GuardedRun(s, es)
    ensures History(base, Run(s, es))
    decreases |es|
  {
    if es != [] {
      StepKeepsHistoryIff(base, s, es[0]);
      RunKeepsHistory(base, Step(s, es[0]), es[1..]);
    }
  }

  /** What a commit history means: for any two entries of the log, heights count up from
      the base one by one, the later block extends the earlier, and none repeats. */
  lemma HistoryIsOneChain(base: Draft, s: State, i: nat, k: nat)
    requires History(base, s) && i < k < |s.log|
    ensures s.log[i].draft.Height() == base.Height() + 1 + i
    ensures Extends(s.log[k].draft.block, s.log[i].draft.block)
    ensures s.log[i].draft.block != s.log[k].draft.block
    ensures Escorted(s.log[i]) && Escorted(s.log[k])
  {
    CommitChainHeights(base, s.log, i);
    CommitChainOrdered(base, s.log, i, k);
  }

  // ---------- runs of proposals ----------

  /** The certificate a proposal carries names the proposal's parent (any hash will do
      for genesis). */
  predicate NamesParent(m: Proposal) {
    m.block.Block? && m.qc.height == m.block.parent.Number() && EscortKey(m.qc) == m.block.parent
  }

  /** For a proposal that passes the vote guard and commits, the certified draft lies under
      the last committed one unless the proposal sits directly on the last committed block. */
  lemma ProposalGuardIff(s: State, m: Proposal)
    requires Coherent(s) && s.lastCommitted.handle < s.nextHandle
    requires VotesFor(s, m) && NamesParent(m)
    requires Commits(AddIfAbsent(s, Accept(s, m).value), m.store, m.qc)
    ensures Guarded(s, Propose(m)) <==> m.block.parent != s.lastCommitted.block
  {
    var bnew := Accept(s, m).value;
    var s1 := AddIfAbsent(s, bnew);
    UpdateCommits(s1, m.store, m.qc);
    var bPrime := GetByEscortQC(s1, m.store, m.qc).value;
    var parent := bnew.parent.value;
    assert bPrime == s.drafts[m.block.parent] == parent;
    ExtendedIsUnder(parent, s.lastCommitted, MAX_HOPS - 1);
    if Under(bPrime, s.lastCommitted) {
      UnderExtends(bPrime, s.lastCommitted);
    }
  }

  lemma {:induction false} ExtendedIsUnder(d: Draft, last: Draft, hops: nat)
    requires ExtendedWithin(d, last, hops)
    ensures d == last || Under(d, last)
  {
    if d != last {
      ExtendedIsUnder(d.parent.value, last, hops - 1);
    }
  }
}
