/** Concrete runs of single replicas: the pieces of the network runs in AgreementRuns, and runs
    in which a promise about one replica fails without its condition. */
module Scenarios {
  import opened Blocks
  import opened Drafts
  import opened Pacemaker
  import opened CommitRuns
  import opened ProposalRuns
  import opened DoubleInclusion

  // ---------- what an accepted proposal does ----------

  /** A proposal on draft `p` that passes every check and repeats nothing. */
  predicate Ready(s: State, m: Proposal, p: Draft) {
    !s.halted && m.block.Block? && m.block.Number() >= s.lastCommitted.Height() && m.block !in s.drafts &&
    m.block.parent in s.drafts && s.drafts[m.block.parent] == p && m.qcValid && m.tcValid && m.signed &&
    m.execution == Executed && RoundAllowed(p, m.round, true) &&
    (m.block.IsSBlock() ==> m.block.parent.IsKBlock() || m.block.parent.IsSBlock()) &&
    forall t :: t in m.block.txs ==> t !in TxsInCache(s, m.store, m.block.parent)
  }

  function DraftFor(s: State, m: Proposal, p: Draft): Draft {
    Draft(s.nextHandle + 1, m.block, m.round, m.qc, Some(p), Some(p), false, Success)
  }

  lemma Accepts(s: State, m: Proposal, p: Draft)
    requires Ready(s, m, p)
    ensures Accept(s, m) == Some(DraftFor(s, m, p))
  {
  }

  /** The state after a vote whose update only raised the highest certificate. */
  function Voting(s: State, d: Draft, high: DraftQC): State {
    s.(drafts := s.drafts[d.block := d], nextHandle := s.nextHandle + 2, lastVotingHeight := d.Height(),
       qcHigh := high, currentRound := Succ32(d.round))
  }

  /** A vote, whatever its update does. */
  lemma VotesWith(s: State, m: Proposal, p: Draft, u: State)
    requires Ready(s, m, p) && m.block.Number() >= s.lastVotingHeight && ExtendedWithin(p, s.lastCommitted, 9)
    requires s.currentRound <= Succ32(m.round) && u.currentRound == s.currentRound && !u.halted
    requires Update(AddIfAbsent(s, DraftFor(s, m, p)), m.store, m.qc) == u
    ensures VotesFor(s, m)
    ensures Step(s, Propose(m)) == u.(lastVotingHeight := m.block.Number(), currentRound := Succ32(m.round))
  {
    Accepts(s, m, p);
    assert ExtendedWithin(DraftFor(s, m, p), s.lastCommitted, 10);
  }

  lemma Votes(s: State, m: Proposal, p: Draft, high: DraftQC)
    requires Ready(s, m, p) && m.block.Number() >= s.lastVotingHeight && ExtendedWithin(p, s.lastCommitted, 9)
    requires s.currentRound <= Succ32(m.round)
    requires var s1 := AddIfAbsent(s, DraftFor(s, m, p)); Update(s1, m.store, m.qc) == s1.(qcHigh := high)
    ensures VotesFor(s, m) && Step(s, Propose(m)) == Voting(s, DraftFor(s, m, p), high)
  {
    VotesWith(s, m, p, AddIfAbsent(s, DraftFor(s, m, p)).(qcHigh := high));
  }

  lemma OnlyAdds(s: State, m: Proposal, p: Draft)
    requires Ready(s, m, p)
    requires m.block.Number() < s.lastVotingHeight || !ExtendedWithin(DraftFor(s, m, p), s.lastCommitted, 10)
    ensures !VotesFor(s, m) && Step(s, Propose(m)) == AddIfAbsent(s, DraftFor(s, m, p))
  {
    Accepts(s, m, p);
  }

  /** The certificate of draft `d` of the map. */
  predicate Certifies(s: State, qc: QC, d: Draft) {
    EscortKey(qc) in s.drafts && s.drafts[EscortKey(qc)] == d && MatchesQC(d, qc)
  }

  lemma UpdateSkips(s: State, store: Store, qc: QC, d: Draft)
    requires Certifies(s, qc, d) && Committed(s, d)
    ensures Update(s, store, qc) == s.(qcHigh := s.qcHigh)
  {
  }

  /** Directly on the last committed draft there is nothing to commit. */
  lemma UpdateRaises(s: State, store: Store, qc: QC, d: Draft)
    requires Certifies(s, qc, d) && !Committed(s, d) && d.parent == d.justify == Some(s.lastCommitted)
    requires s.qcHigh.node.Some? || qc.height > s.qcHigh.qc.height
    ensures var high := UpdateQCHigh(s, DraftQC(qc, Some(d))).qcHigh; Update(s, store, qc) == s.(qcHigh := high)
  {
    assert CommitReady(d, s.lastCommitted.Height()) == Some([]);
    var s1 := UpdateQCHigh(s, DraftQC(qc, Some(d)));
    assert s1.log + [] == s1.log;
    assert OnCommit(s1, []) == s1;
  }

  /** One block above the last committed draft, that block is committed and the map pruned. */
  lemma UpdateCommitsOne(s: State, store: Store, qc: QC, d: Draft, p: Draft)
    requires Certifies(s, qc, d) && !Committed(s, d) && d.parent == d.justify == Some(p) && qc.height > s.qcHigh.qc.height
    requires p.parent == Some(s.lastCommitted) && p.Height() > s.lastCommitted.Height() && ReachesPruning(p) && !s.halted
    ensures Update(s, store, qc) ==
      PruneUpTo(s, p).(qcHigh := DraftQC(qc, Some(d)), log := s.log + [Commit(p, d.qc)], lastCommitted := p)
  {
    var batch := [Commit(p, d.qc)];
    assert CommitReady(p, s.lastCommitted.Height()) == Some([]);
    assert [] + batch == batch;
    assert CommitReady(d, s.lastCommitted.Height()) == Some(batch);
    var s1 := s.(qcHigh := DraftQC(qc, Some(d)), log := s.log + batch);
    assert batch[1..] == [];
    assert OnCommit(s1, batch) == OnCommit(PruneUpTo(s1, p), []) == PruneUpTo(s1, p);
    assert Update(s, store, qc) == OnCommit(s1, batch).(lastCommitted := p);
  }

  /** The vote that completes a certificate for `d` passes the path below `d` on for commit. */
  lemma CollectCommits(s: State, v: VoteMsg, d: Draft, batch: seq<Commit>)
    requires !s.halted && v.toNextProposer && v.formed.Some? && !OutdatedVote(s, v.round)
    requires v.block == d.block && d.round == v.round && EscortKey(v.formed.value) == d.block && Certifies(s, v.formed.value, d)
    requires !Committed(s, d) && d.parent == d.justify && d.parent.Some?
    requires v.formed.value.height > s.qcHigh.qc.height && CommitReady(d, s.lastCommitted.Height()) == Some(batch)
    ensures Step(s, Vote(v)).log == s.log + batch
  {
    assert GetDraft(s, v.store, v.block) == Some(d);
    assert VoteRaises(s, v);
    UpdateCommits(Raised(s, v), v.store, v.formed.value);
  }

  /** The same for a timeout message whose vote completes it. */
  lemma TimeoutCommits(s: State, t: TimeoutMsg, d: Draft, batch: seq<Commit>)
    requires !s.halted && t.toProposer && t.formed.Some? && Certifies(s, t.formed.value, d)
    requires !Committed(s, d) && d.parent == d.justify && d.parent.Some?
    requires t.formed.value.height > s.qcHigh.qc.height && CommitReady(d, s.lastCommitted.Height()) == Some(batch)
    ensures Step(s, Timeout(t)).log == s.log + batch
  {
    assert FirstRaise(s, t) == s.(qcHigh := DraftQC(t.formed.value, Some(d)), nextHandle := s.nextHandle + 1);
    UpdateCommits(FirstRaise(s, t), t.store, t.formed.value);
    TimeoutCore(s, t);
  }

  /** The same for a voted proposal that carries the certificate of `d`. */
  lemma ProposalCommits(s: State, m: Proposal, p: Draft, d: Draft, batch: seq<Commit>)
    requires Ready(s, m, p) && m.block.Number() >= s.lastVotingHeight && ExtendedWithin(p, s.lastCommitted, 9)
    requires var s1 := AddIfAbsent(s, DraftFor(s, m, p)); Certifies(s1, m.qc, d) && !Committed(s1, d)
    requires d.parent == d.justify && d.parent.Some? && m.qc.height > s.qcHigh.qc.height
    requires CommitReady(d, s.lastCommitted.Height()) == Some(batch)
    ensures VotesFor(s, m) && Step(s, Propose(m)).log == s.log + batch
  {
    Accepts(s, m, p);
    assert ExtendedWithin(DraftFor(s, m, p), s.lastCommitted, 10);
    UpdateCommits(AddIfAbsent(s, DraftFor(s, m, p)), m.store, m.qc);
    ProposalMap(s, m);
  }

  // ---------- the blocks and messages ----------

  const P: Block := Block(Genesis, MBlock, [], 0)
  const A: Block := Block(P, MBlock, [], 0)
  const B: Block := Block(P, MBlock, [], 1)
  const A2: Block := Block(A, MBlock, [], 0)
  const B2: Block := Block(B, MBlock, [], 0)
  const B3: Block := Block(B2, MBlock, [], 0)

  lemma Numbers()
    ensures P.Number() == 1 && A.Number() == B.Number() == 2 && A2.Number() == B2.Number() == 3 && B3.Number() == 4
  {
    assert P.Number() == 1;
    assert A.Number() == 2 && B.Number() == 2;
    assert A2.Number() == 3 && B2.Number() == 3;
  }

  const qcG: QC := QC(0, 0, Genesis, {})

  /** The first two blocks are stored and on the trunk. */
  const Held: Store := Store(map[Genesis := qcG, P := qcG], map[0 := Genesis, 1 := P])

  function CertFor(b: Block, round: nat): QC {
    QC(b.Number(), round, b, {0, 1})
  }

  /** A proposal every check accepts. */
  function Good(b: Block, round: nat, qc: QC): Proposal {
    Proposal(b, round, qc, true, true, Executed, true, Held)
  }

  const qcP: QC := CertFor(P, 1)
  const qcA: QC := CertFor(A, 2)
  const qcB: QC := CertFor(B, 3)
  const qcA2: QC := CertFor(A2, 4)
  const qcB2: QC := CertFor(B2, 5)

  const mA: Proposal := Good(A, 2, qcP)
  const mB: Proposal := Good(B, 3, qcP)
  const mA2: Proposal := Good(A2, 4, qcA)
  const mB2: Proposal := Good(B2, 5, qcB)
  const vA2: VoteMsg := VoteMsg(A2, 4, true, Some(qcA2), Held)
  const vB2: VoteMsg := VoteMsg(B2, 5, true, Some(qcB2), Held)

  const dP: Draft := Draft(0, P, 1, qcG, None, None, true, Unprocessed)
  const dA: Draft := Draft(2, A, 2, qcP, Some(dP), Some(dP), false, Success)
  const dB: Draft := Draft(4, B, 3, qcP, Some(dP), Some(dP), false, Success)
  const dA2: Draft := Draft(6, A2, 4, qcA, Some(dA), Some(dA), false, Success)
  const dB2: Draft := Draft(8, B2, 5, qcB, Some(dB), Some(dB), false, Success)

  const highP: DraftQC := DraftQC(qcP, Some(dP))

  /** All replicas start from `P`. */
  const s0: State := State(map[P := dP], {}, 1, dP, 0, highP, 2, 1, [], false)

  lemma StartsRegulated()
    ensures s0 == Regulated(P, qcG, qcP, 2) && Settled(s0) && History(s0.lastCommitted, s0)
  {
    assert Int32(Pred32(2)) == 1;
  }

  // ---------- a replica that votes on both branches ----------

  const s1: State := State(map[P := dP, A := dA], {}, 3, dP, 2, highP, 3, 1, [], false)
  const s2: State := State(map[P := dP, A := dA, B := dB], {}, 5, dP, 2, highP, 4, 1, [], false)
  const s3: State :=
    State(map[P := dP, A := dA, B := dB, A2 := dA2], {}, 7, dP, 3, DraftQC(qcA, Some(dA)), 5, 1, [], false)
  const s4: State :=
    State(map[P := dP, A := dA, B := dB, A2 := dA2, B2 := dB2], {}, 9, dP, 3, DraftQC(qcB, Some(dB)), 6, 1, [], false)

  lemma VotesA()
    ensures VotesFor(s0, mA) && Step(s0, Propose(mA)) == s1
  {
    Numbers();
    UpdateSkips(AddIfAbsent(s0, dA), Held, qcP, dP);
    Votes(s0, mA, dP, highP);
  }

  lemma VotesB()
    ensures VotesFor(s1, mB) && Step(s1, Propose(mB)) == s2
  {
    Numbers();
    UpdateSkips(AddIfAbsent(s1, dB), Held, qcP, dP);
    Votes(s1, mB, dP, highP);
  }

  lemma VotesA2()
    ensures VotesFor(s2, mA2) && Step(s2, Propose(mA2)) == s3
  {
    Numbers();
    UpdateRaises(AddIfAbsent(s2, dA2), Held, qcA, dA);
    Votes(s2, mA2, dA, DraftQC(qcA, Some(dA)));
  }

  lemma VotesB2()
    ensures VotesFor(s3, mB2) && Step(s3, Propose(mB2)) == s4
  {
    Numbers();
    UpdateRaises(AddIfAbsent(s3, dB2), Held, qcB, dB);
    Votes(s3, mB2, dB, DraftQC(qcB, Some(dB)));
  }

  /** Collecting the votes on `B2`, it commits `B`. */
  lemma CommitsB()
    ensures Step(s4, Vote(vB2)).log == [Commit(dB, qcB)]
  {
    Numbers();
    assert CommitReady(dB, 1) == Some([]);
    CollectCommits(s4, vB2, dB2, [] + [Commit(dB, qcB)]);
  }

  // ---------- a replica that sees only the first branch ----------

  const dA2': Draft := Draft(4, A2, 4, qcA, Some(dA), Some(dA), false, Success)
  const t2: State :=
    State(map[P := dP, A := dA, A2 := dA2'], {}, 5, dP, 3, DraftQC(qcA, Some(dA)), 5, 1, [], false)

  lemma VotesA2Alone()
    ensures VotesFor(s1, mA2) && Step(s1, Propose(mA2)) == t2
  {
    Numbers();
    UpdateRaises(AddIfAbsent(s1, dA2'), Held, qcA, dA);
    Votes(s1, mA2, dA, DraftQC(qcA, Some(dA)));
  }

  /** Collecting the votes on `A2`, it commits `A`. */
  lemma CommitsA()
    ensures Step(t2, Vote(vA2)).log == [Commit(dA, qcA)]
  {
    Numbers();
    assert CommitReady(dA, 1) == Some([]);
    CollectCommits(t2, vA2, dA2', [] + [Commit(dA, qcA)]);
  }

  // ---------- a replica that sees only the second branch ----------

  const dBr: Draft := Draft(2, B, 3, qcP, Some(dP), Some(dP), false, Success)
  const r1: State := State(map[P := dP, B := dBr], {}, 3, dP, 2, highP, 4, 1, [], false)

  lemma VotesBAlone()
    ensures VotesFor(s0, mB) && Step(s0, Propose(mB)) == r1
  {
    Numbers();
    UpdateSkips(AddIfAbsent(s0, dBr), Held, qcP, dP);
    Votes(s0, mB, dP, highP);
  }

  /** Certificates of validator 2 with one more bit than a committee of three has members. */
  const wideB: QC := QC(2, 3, B, {2, 3})
  const wideB2: QC := QC(3, 5, B2, {2, 3})
  const mB2w: Proposal := Good(B2, 5, wideB)
  const mB3w: Proposal := Good(B3, 6, wideB2)
  const dB2w: Draft := Draft(4, B2, 5, wideB, Some(dBr), Some(dBr), false, Success)
  const r2: State := State(map[P := dP, B := dBr, B2 := dB2w], {}, 5, dP, 3, DraftQC(wideB, Some(dBr)), 6, 1, [], false)

  lemma VotesB2Wide()
    ensures VotesFor(r1, mB2w) && Step(r1, Propose(mB2w)) == r2
  {
    Numbers();
    UpdateRaises(AddIfAbsent(r1, dB2w), Held, wideB, dBr);
    Votes(r1, mB2w, dBr, DraftQC(wideB, Some(dBr)));
  }

  lemma CommitsBWide()
    ensures VotesFor(r2, mB3w) && Step(r2, Propose(mB3w)).log == [Commit(dBr, wideB)]
  {
    Numbers();
    assert CommitReady(dBr, 1) == Some([]);
    ProposalCommits(r2, mB3w, dB2w, dB2w, [] + [Commit(dBr, wideB)]);
  }

  /** The same blocks with the certificate of `P` again. */
  const mB2p: Proposal := Good(B2, 5, qcP)
  const mB3p: Proposal := Good(B3, 6, qcP)
  const qcB3: QC := QC(4, 6, B3, {1, 2})
  const vB3: VoteMsg := VoteMsg(B3, 6, true, Some(qcB3), Held)
  const dB2p: Draft := Draft(4, B2, 5, qcP, Some(dBr), Some(dBr), false, Success)
  const dB3p: Draft := Draft(6, B3, 6, qcP, Some(dB2p), Some(dB2p), false, Success)
  const q2: State := State(map[P := dP, B := dBr, B2 := dB2p], {}, 5, dP, 3, highP, 6, 1, [], false)
  const q3: State := State(map[P := dP, B := dBr, B2 := dB2p, B3 := dB3p], {}, 7, dP, 4, highP, 7, 1, [], false)

  lemma VotesB2Again()
    ensures VotesFor(r1, mB2p) && Step(r1, Propose(mB2p)) == q2
  {
    Numbers();
    UpdateSkips(AddIfAbsent(r1, dB2p), Held, qcP, dP);
    Votes(r1, mB2p, dBr, highP);
  }

  lemma VotesB3Again()
    ensures VotesFor(q2, mB3p) && Step(q2, Propose(mB3p)) == q3
  {
    Numbers();
    assert ExtendedWithin(dBr, dP, 8);
    UpdateSkips(AddIfAbsent(q2, dB3p), Held, qcP, dP);
    Votes(q2, mB3p, dB2p, highP);
  }

  lemma CommitsB2()
    ensures Step(q3, Vote(vB3)).log == [Commit(dBr, qcP), Commit(dB2p, qcP)]
  {
    Numbers();
    assert CommitReady(dBr, 1) == Some([]);
    assert CommitReady(dB2p, 1) == Some([] + [Commit(dBr, qcP)]);
    CollectCommits(q3, vB3, dB3p, [] + [Commit(dBr, qcP)] + [Commit(dB2p, qcP)]);
  }

  // ---------- a replica that changes branch without voting twice at one height ----------

  const dBm: Draft := Draft(6, B, 3, qcP, Some(dP), Some(dP), false, Success)
  const m1: State :=
    State(map[P := dP, A := dA, A2 := dA2', B := dBm], {}, 7, dP, 3, DraftQC(qcA, Some(dA)), 5, 1, [], false)

  /** `B` comes below its voting height. */
  lemma AddsB()
    ensures !VotesFor(t2, mB) && Step(t2, Propose(mB)) == m1
  {
    Numbers();
    OnlyAdds(t2, mB, dP);
  }

  /** A timeout message names `B` as the sender's highest certified block. */
  const namesB: QC := QC(2, 3, B, {})
  const toB: TimeoutMsg := TimeoutMsg(true, Genesis, 0, None, namesB, Held)
  const m2: State := m1.(qcHigh := DraftQC(namesB, Some(dBm)), nextHandle := 8)

  lemma RaisesB()
    ensures Step(m1, Timeout(toB)) == m2
  {
    Numbers();
    assert GetByEscortQC(m1, Held, namesB) == Some(dBm);
  }

  /** So its own next proposal is `B2`. */
  const beat: BeatMsg := BeatMsg(0, 5, true, Some(Leaf(MBlock, [], 0)), Held)
  const dBb: Draft := Draft(9, B2, 5, namesB, Some(dBm), Some(dBm), false, Success)
  const m3: State :=
    State(map[P := dP, A := dA, A2 := dA2', B := dBm, B2 := dBb], {}, 10, dP, 3, DraftQC(namesB, Some(dBm)), 5, 5, [], false)

  lemma BuildsB2()
    ensures Step(m2, Beat(0, beat)) == m3
  {
    Numbers();
    assert GetByEscortQC(m2, Held, namesB) == Some(dBm);
    assert BeatDraft(m2, 0, beat) == Some(dBb);
  }

  const dB3m: Draft := Draft(11, B3, 6, qcP, Some(dBb), Some(dBb), false, Success)
  const m4: State := Voting(m3, dB3m, DraftQC(namesB, Some(dBm)))

  lemma VotesB3()
    ensures VotesFor(m3, mB3p) && Step(m3, Propose(mB3p)) == m4
  {
    Numbers();
    assert ExtendedWithin(dBm, dP, 8);
    UpdateSkips(AddIfAbsent(m3, dB3m), Held, qcP, dP);
    Votes(m3, mB3p, dBb, DraftQC(namesB, Some(dBm)));
  }

  // ---------- the same with a certificate whose hash is not that of the block voted on ----------

  /** Certificates of validators 0 to 2 out of four. */
  const fullA: QC := QC(2, 2, A, {0, 1, 2})
  const fullA2: QC := QC(3, 4, A2, {0, 1, 2})
  const mA2f: Proposal := Good(A2, 4, fullA)
  const vA2f: VoteMsg := VoteMsg(A2, 4, true, Some(fullA2), Held)
  const dA2f: Draft := Draft(4, A2, 4, fullA, Some(dA), Some(dA), false, Success)
  const highA: DraftQC := DraftQC(fullA, Some(dA))
  const f2: State := State(map[P := dP, A := dA, A2 := dA2f], {}, 5, dP, 3, highA, 5, 1, [], false)

  lemma VotesA2Full()
    ensures VotesFor(s1, mA2f) && Step(s1, Propose(mA2f)) == f2
  {
    Numbers();
    UpdateRaises(AddIfAbsent(s1, dA2f), Held, fullA, dA);
    Votes(s1, mA2f, dA, highA);
  }

  lemma CommitsAFull()
    ensures Step(f2, Vote(vA2f)).log == [Commit(dA, fullA)]
  {
    Numbers();
    assert CommitReady(dA, 1) == Some([]);
    CollectCommits(f2, vA2f, dA2f, [] + [Commit(dA, fullA)]);
  }

  const f3: State :=
    State(map[P := dP, A := dA, A2 := dA2f, B := dBm], {}, 7, dP, 3, highA, 5, 1, [], false)

  lemma AddsBFull()
    ensures !VotesFor(f2, mB) && Step(f2, Propose(mB)) == f3
  {
    Numbers();
    OnlyAdds(f2, mB, dP);
  }

  const highB: DraftQC := DraftQC(namesB, Some(dBm))
  const f4: State := f3.(qcHigh := highB, nextHandle := 8)

  lemma RaisesBFull()
    ensures Step(f3, Timeout(toB)) == f4
  {
    Numbers();
    assert GetByEscortQC(f3, Held, namesB) == Some(dBm);
  }

  /** The replica proposes `B2` in the round in which the others vote on `A2`. */
  const beat4: BeatMsg := BeatMsg(0, 4, true, Some(Leaf(MBlock, [], 0)), Held)
  const dB4: Draft := Draft(9, B2, 4, namesB, Some(dBm), Some(dBm), false, Success)
  const f5: State :=
    State(map[P := dP, A := dA, A2 := dA2f, B := dBm, B2 := dB4], {}, 10, dP, 3, highB, 5, 4, [], false)

  lemma BuildsB2Full()
    ensures Step(f4, Beat(0, beat4)) == f5
  {
    Numbers();
    assert GetByEscortQC(f4, Held, namesB) == Some(dBm);
    assert BeatDraft(f4, 0, beat4) == Some(dB4);
  }

  /** A certificate of the votes on `A2` in round 4 with the hash of `B2`. */
  const mixed: QC := QC(3, 4, B2, {0, 1, 3})
  const toMixed: TimeoutMsg := TimeoutMsg(true, A2, 4, Some(mixed), namesB, Held)

  lemma CommitsBMixed()
    ensures Step(f5, Timeout(toMixed)).log == [Commit(dBm, namesB)]
  {
    Numbers();
    assert CommitReady(dBm, 1) == Some([]);
    TimeoutCommits(f5, toMixed, dB4, [] + [Commit(dBm, namesB)]);
  }

  // ---------- a committed block that was never flagged ----------

  const K: Block := Block(P, KBlock, [], 0)
  const S1: Block := Block(K, SBlock, [], 0)
  const S2: Block := Block(S1, SBlock, [], 0)
  const S3: Block := Block(S1, SBlock, [], 1)

  const qcK: QC := CertFor(K, 2)
  const qcS1: QC := CertFor(S1, 3)
  const qcS2: QC := CertFor(S2, 4)

  const eK: Event := Propose(Good(K, 2, qcP))
  const eS1: Event := Propose(Good(S1, 3, qcK))
  const eS2: Event := Propose(Good(S2, 4, qcS1))
  const vS2: Event := Vote(VoteMsg(S2, 4, true, Some(qcS2), Held))
  const eS3: Event := Propose(Good(S3, 5, qcS1))

  const dK: Draft := Draft(2, K, 2, qcP, Some(dP), Some(dP), false, Success)
  const dS1: Draft := Draft(4, S1, 3, qcK, Some(dK), Some(dK), false, Success)
  const dS2: Draft := Draft(6, S2, 4, qcS1, Some(dS1), Some(dS1), false, Success)
  const dS3: Draft := Draft(9, S3, 5, qcS1, Some(dS1), Some(dS1), false, Success)

  const k1: State := State(map[P := dP, K := dK], {}, 3, dP, 2, DraftQC(qcP, Some(dP)), 3, 1, [], false)
  const k2: State :=
    State(map[P := dP, K := dK, S1 := dS1], {}, 5, dP, 3, DraftQC(qcK, Some(dK)), 4, 1, [], false)
  const k3: State :=
    State(map[K := dK, S1 := dS1, S2 := dS2], {2}, 7, dK, 4, DraftQC(qcS1, Some(dS1)), 5, 1, [Commit(dK, qcK)], false)
  const k4: State :=
    State(map[K := dK, S1 := dS1, S2 := dS2], {2}, 8, dS1, 4, DraftQC(qcS2, Some(dS2)), 5, 1,
          [Commit(dK, qcK), Commit(dS1, qcS1)], false)

  lemma NumbersK()
    ensures P.Number() == 1 && K.Number() == 2 && S1.Number() == 3 && S2.Number() == S3.Number() == 4
  {
    assert P.Number() == 1;
    assert S1.Number() == 3;
  }

  lemma StepK()
    ensures Step(s0, eK) == k1
  {
    NumbersK();
    UpdateSkips(AddIfAbsent(s0, dK), Held, qcP, dP);
    Votes(s0, eK.proposal, dP, highP);
  }

  lemma StepS1()
    ensures Step(k1, eS1) == k2
  {
    NumbersK();
    UpdateRaises(AddIfAbsent(k1, dS1), Held, qcK, dK);
    Votes(k1, eS1.proposal, dK, DraftQC(qcK, Some(dK)));
  }

  lemma PrunedToK()
    ensures PruneDrafts(map[P := dP, K := dK, S1 := dS1, S2 := dS2], dK) == map[K := dK, S1 := dS1, S2 := dS2]
  {
    NumbersK();
  }

  lemma UpdateS2()
    ensures Update(AddIfAbsent(k2, dS2), Held, qcS1) == k3.(lastVotingHeight := k2.lastVotingHeight, currentRound := k2.currentRound)
  {
    NumbersK();
    PrunedToK();
    UpdateCommitsOne(AddIfAbsent(k2, dS2), Held, qcS1, dS1, dK);
    assert AddIfAbsent(k2, dS2).drafts == map[P := dP, K := dK, S1 := dS1, S2 := dS2];
  }

  lemma StepS2()
    ensures Step(k2, eS2) == k3
  {
    NumbersK();
    UpdateS2();
    assert ExtendedWithin(dK, dP, 8);
    VotesWith(k2, eS2.proposal, dS1, Update(AddIfAbsent(k2, dS2), Held, qcS1));
  }

  lemma StepVoteS2()
    ensures Step(k3, vS2) == k4
  {
    NumbersK();
    assert GetDraft(k3, Held, S2) == Some(dS2);
    assert VoteRaises(k3, vS2.vote);
    var t := Raised(k3, vS2.vote);
    assert GetByEscortQC(t, Held, qcS2) == Some(dS2);
    assert CommitReady(dS1, 2) == Some([]);
    var batch := [Commit(dS1, qcS1)];
    assert [] + batch == batch;
    assert CommitReady(dS2, 2) == Some(batch);
    var t1 := t.(log := t.log + batch);
    assert OnCommit(t1, batch) == OnCommit(t1, []) == t1;
    assert Update(t, Held, qcS2) == t1.(lastCommitted := dS1);
    assert t1.log == k4.log;
  }

  lemma StepS3()
    ensures VotesFor(k4, eS3.proposal) && NamesParent(eS3.proposal) && Step(k4, eS3).lastCommitted == dK
  {
    NumbersK();
    assert GetDraft(k4, Held, S1) == Some(dS1);
    assert Accept(k4, eS3.proposal) == Some(dS3);
    assert ExtendedWithin(dS3, dS1, 10);
    var t := AddIfAbsent(k4, dS3);
    assert GetByEscortQC(t, Held, qcS1) == Some(dS1);
    assert CommitReady(dS1, 3) == Some([]);
    assert Update(t, Held, qcS1) == t.(log := t.log + [], lastCommitted := dK);
  }

  lemma StopRun()
    ensures Run(s0, [eK, eS1, eS2, vS2]) == k4
  {
    StepK();
    StepS1();
    StepS2();
    StepVoteS2();
    RunFour(s0, eK, eS1, eS2, vS2);
  }

  /** A run from a regulation after which a proposal that passes the vote guard and names
      its parent moves the last committed draft back to its own parent: the block had been
      passed over by the commit, so its draft was never flagged. */
  lemma UnflaggedCommitStepsBack() returns (start: State, es: seq<Event>, m: Proposal)
    ensures Settled(start) && History(start.lastCommitted, start)
    ensures VotesFor(Run(start, es), m) && NamesParent(m)
    ensures Under(Run(start, es).lastCommitted, OnReceiveProposal(Run(start, es), m).lastCommitted)
  {
    start, es, m := s0, [eK, eS1, eS2, vS2], eS3.proposal;
    StartsRegulated();
    StopRun();
    StepS3();
    assert Under(dS1, dK);
  }

  lemma RunFour(s: State, a: Event, b: Event, c: Event, d: Event)
    ensures Run(s, [a, b, c, d]) == Step(Step(Step(Step(s, a), b), c), d)
  {
    var s1 := Step(s, a);
    var s2 := Step(s1, b);
    var s3 := Step(s2, c);
    assert [d][1..] == [] && Run(s3, [d]) == Run(Step(s3, d), []);
    assert [c, d][1..] == [d] && Run(s2, [c, d]) == Run(s3, [d]);
    assert [b, c, d][1..] == [c, d] && Run(s1, [b, c, d]) == Run(s2, [c, d]);
    assert [a, b, c, d][1..] == [b, c, d] && Run(s, [a, b, c, d]) == Run(s1, [b, c, d]);
  }

  // ---------- a highest certificate without a draft ----------

  /** A timeout message whose certificate, for the height of the highest one and a later round,
      names a block this replica does not have. */
  const unmatched: QC := QC(2, 9, B, {})
  const toNone: TimeoutMsg := TimeoutMsg(true, Genesis, 0, None, unmatched, Held)

  /** An ordinary proposal on the highest certified block. */
  const C: Block := Block(A, MBlock, [], 9)
  const mC: Proposal := Good(C, 10, qcA)

  lemma Unmatched()
    ensures Step(t2, Timeout(toNone)) == t2.(qcHigh := DraftQC(unmatched, None), nextHandle := 6)
  {
    Numbers();
    assert GetByEscortQC(t2, Held, unmatched) == None;
  }

  lemma HaltsOnC()
    ensures var s := t2.(qcHigh := DraftQC(unmatched, None), nextHandle := 6);
      VotesFor(s, mC) && OnReceiveProposal(s, mC).halted
  {
    Numbers();
    var s := t2.(qcHigh := DraftQC(unmatched, None), nextHandle := 6);
    assert C.Number() == 3;
    Accepts(s, mC, dA);
    var d := DraftFor(s, mC, dA);
    assert ExtendedWithin(dA, dP, 9);
    assert ExtendedWithin(d, dP, 10);
    assert GetByEscortQC(AddIfAbsent(s, d), Held, qcA) == Some(dA);
    assert Update(AddIfAbsent(s, d), Held, qcA).halted;
  }

  /** From a regulation: two proposals, then a timeout message with an unmatched certificate, and
      the next ordinary proposal dereferences the missing draft. */
  lemma UnpairedHalts() returns (start: State, es: seq<Event>, m: Proposal)
    ensures Settled(start) && History(start.lastCommitted, start)
    ensures !Run(start, es).halted && Run(start, es).qcHigh.node.None?
    ensures VotesFor(Run(start, es), m) && OnReceiveProposal(Run(start, es), m).halted
  {
    start, es, m := s0, [Propose(mA), Propose(mA2), Timeout(toNone)], mC;
    StartsRegulated();
    VotesA();
    VotesA2Alone();
    Unmatched();
    HaltsOnC();
    RunThree(start, es[0], es[1], es[2]);
  }

  lemma RunThree(s: State, a: Event, b: Event, c: Event)
    ensures Run(s, [a, b, c]) == Step(Step(Step(s, a), b), c)
  {
    var s1 := Step(s, a);
    var s2 := Step(s1, b);
    assert [c][1..] == [] && Run(s2, [c]) == Run(Step(s2, c), []);
    assert [b, c][1..] == [c] && Run(s1, [b, c]) == Run(s2, [c]);
    assert [a, b, c][1..] == [b, c] && Run(s, [a, b, c]) == Run(s1, [b, c]);
  }

  // ---------- a round that wraps ----------

  const mLast: Proposal := Good(A, TWO32 - 1, qcP)
  const dLast: Draft := Draft(2, A, TWO32 - 1, qcP, Some(dP), Some(dP), false, Success)

  /** A voted proposal for the last 32-bit round, which a timeout certificate allows, takes the
      replica back to round 0. */
  lemma LastRoundWraps() returns (s: State, m: Proposal)
    ensures Settled(s) && VotesFor(s, m) && m.round < TWO32
    ensures s.currentRound == 2 && OnReceiveProposal(s, m).currentRound == 0
  {
    s, m := s0, mLast;
    StartsRegulated();
    Numbers();
    Accepts(s, m, dP);
    assert ExtendedWithin(dP, dP, 9);
    assert ExtendedWithin(dLast, dP, 10);
    UpdateSkips(AddIfAbsent(s0, dLast), Held, qcP, dP);
  }

  // ---------- a transaction on a pruned fork ----------

  const F: Block := Block(Genesis, MBlock, [7], 1)
  const F2: Block := Block(F, MBlock, [], 0)
  const Q: Block := Block(P, MBlock, [], 5)
  const R: Block := Block(Q, MBlock, [], 0)
  const F3: Block := Block(F2, MBlock, [7], 0)

  lemma NumbersF()
    ensures P.Number() == F.Number() == 1 && Q.Number() == F2.Number() == 2 && R.Number() == F3.Number() == 3
  {
    assert P.Number() == 1 && F.Number() == 1;
    assert Q.Number() == 2 && F2.Number() == 2;
  }

  /** Before and after `P` is committed. */
  const bare: Store := Store(map[Genesis := qcG], map[0 := Genesis])

  function Early(b: Block, round: nat, qc: QC): Proposal {
    Proposal(b, round, qc, true, true, Executed, true, bare)
  }

  const fP: Proposal := Early(P, 1, qcG)
  const fF: Proposal := Early(F, 2, qcG)
  const fF2: Proposal := Early(F2, 3, CertFor(F, 2))
  const fQ: Proposal := Early(Q, 4, CertFor(P, 1))
  const fR: Proposal := Early(R, 5, CertFor(Q, 4))
  const fF3: Proposal := Good(F3, 6, CertFor(F2, 3))

  const dG: Draft := Draft(0, Genesis, 0, qcG, None, None, true, Unprocessed)
  const gP: Draft := Draft(2, P, 1, qcG, Some(dG), Some(dG), false, Success)
  const gF: Draft := Draft(4, F, 2, qcG, Some(dG), Some(dG), false, Success)
  const gF2: Draft := Draft(6, F2, 3, CertFor(F, 2), Some(gF), Some(gF), false, Success)
  const gQ: Draft := Draft(8, Q, 4, CertFor(P, 1), Some(gP), Some(gP), false, Success)
  const gR: Draft := Draft(10, R, 5, CertFor(Q, 4), Some(gQ), Some(gQ), false, Success)

  const highG: DraftQC := DraftQC(qcG, Some(dG))
  const highF: DraftQC := DraftQC(CertFor(F, 2), Some(gF))

  const g0: State := State(map[Genesis := dG], {}, 1, dG, 0, highG, 0, -1, [], false)
  const g1: State := State(map[Genesis := dG, P := gP], {}, 3, dG, 1, highG, 2, -1, [], false)
  const g2: State := State(map[Genesis := dG, P := gP, F := gF], {}, 5, dG, 1, highG, 3, -1, [], false)
  const g3: State := State(map[Genesis := dG, P := gP, F := gF, F2 := gF2], {}, 7, dG, 2, highF, 4, -1, [], false)
  const g4: State := State(map[Genesis := dG, P := gP, F := gF, F2 := gF2, Q := gQ], {}, 9, dG, 2, highF, 5, -1, [], false)
  const g5: State :=
    State(map[P := gP, F2 := gF2, Q := gQ, R := gR], {2}, 11, gP, 3, DraftQC(CertFor(Q, 4), Some(gQ)), 6, -1,
          [Commit(gP, CertFor(P, 1))], false)

  lemma StartsAtGenesis()
    ensures g0 == Regulated(Genesis, qcG, qcG, 0) && Sane(g0.lastCommitted, g0) && AllPrunable(g0)
  {
    assert Int32(Pred32(0)) == -1;
    RegulatedIsSane(Genesis, qcG, qcG, 0);
  }

  lemma ForkP()
    ensures Step(g0, Propose(fP)) == g1
  {
    NumbersF();
    UpdateSkips(AddIfAbsent(g0, gP), bare, qcG, dG);
    Votes(g0, fP, dG, highG);
  }

  lemma ForkF()
    ensures Step(g1, Propose(fF)) == g2
  {
    NumbersF();
    assert TxsInCache(g1, bare, Genesis) == {};
    UpdateSkips(AddIfAbsent(g1, gF), bare, qcG, dG);
    Votes(g1, fF, dG, highG);
  }

  lemma ForkF2()
    ensures Step(g2, Propose(fF2)) == g3
  {
    NumbersF();
    UpdateRaises(AddIfAbsent(g2, gF2), bare, CertFor(F, 2), gF);
    Votes(g2, fF2, gF, highF);
  }

  lemma ForkQ()
    ensures Step(g3, Propose(fQ)) == g4
  {
    NumbersF();
    UpdateRaises(AddIfAbsent(g3, gQ), bare, CertFor(P, 1), gP);
    Votes(g3, fQ, gP, highF);
  }

  lemma PrunedToP()
    ensures PruneDrafts(map[Genesis := dG, P := gP, F := gF, F2 := gF2, Q := gQ, R := gR], gP) ==
      map[P := gP, F2 := gF2, Q := gQ, R := gR]
  {
    NumbersF();
  }

  lemma UpdateR()
    ensures Update(AddIfAbsent(g4, gR), bare, CertFor(Q, 4)) == g5.(lastVotingHeight := 2, currentRound := 5)
  {
    NumbersF();
    PrunedToP();
    UpdateCommitsOne(AddIfAbsent(g4, gR), bare, CertFor(Q, 4), gQ, gP);
    assert AddIfAbsent(g4, gR).drafts == map[Genesis := dG, P := gP, F := gF, F2 := gF2, Q := gQ, R := gR];
  }

  lemma ForkR()
    ensures Step(g4, Propose(fR)) == g5
  {
    NumbersF();
    UpdateR();
    assert ExtendedWithin(gP, dG, 8);
    VotesWith(g4, fR, gQ, Update(AddIfAbsent(g4, gR), bare, CertFor(Q, 4)));
  }

  /** An ordinary proposal in front of a run of them. */
  lemma PlainFirst(s: State, m: Proposal, t: State, es: seq<Event>)
    requires Plain(m) && VerifiedTxs(m) && StoreHolds(s, m.store) && Step(s, Propose(m)) == t && PlainRun(t, es)
    ensures PlainRun(s, [Propose(m)] + es) && Run(s, [Propose(m)] + es) == Run(t, es)
  {
    assert ([Propose(m)] + es)[1..] == es;
  }

  lemma BareHolds(s: State, m: Proposal)
    requires m.store == bare && s.lastCommitted.block == Genesis && m.block.Block? && NoRepeat(m.block.txs)
    ensures VerifiedTxs(m) && StoreHolds(s, m.store)
  {
  }

  lemma TwoFromR() returns (es: seq<Event>)
    ensures PlainRun(g3, es) && Run(g3, es) == g5
  {
    NumbersF();
    BareHolds(g4, fR);
    ForkR();
    PlainFirst(g4, fR, g5, []);
    BareHolds(g3, fQ);
    ForkQ();
    PlainFirst(g3, fQ, g4, [Propose(fR)] + []);
    es := [Propose(fQ)] + ([Propose(fR)] + []);
  }

  lemma ForkRun() returns (es: seq<Event>)
    ensures PlainRun(g0, es) && Run(g0, es) == g5
  {
    NumbersF();
    es := TwoFromR();
    BareHolds(g2, fF2);
    ForkF2();
    PlainFirst(g2, fF2, g3, es);
    es := [Propose(fF2)] + es;
    BareHolds(g1, fF);
    ForkF();
    PlainFirst(g1, fF, g2, es);
    es := [Propose(fF)] + es;
    BareHolds(g0, fP);
    ForkP();
    PlainFirst(g0, fP, g1, es);
    es := [Propose(fP)] + es;
  }

  lemma HeldIsTrunk()
    ensures StoreHolds(g5, Held)
  {
    NumbersF();
    forall a: Block | Extends(P, a)
      ensures a.Number() in Held.trunk && Held.trunk[a.Number()] == a
    {
      assert a == P || Extends(Genesis, a);
    }
  }

  lemma RepeatAccepted()
    ensures Accept(g5, fF3).Some? && !VotesFor(g5, fF3)
  {
    NumbersF();
    assert GetDraft(g5, Held, F2) == Some(gF2) && GetDraft(g5, Held, F) == None;
    assert TxsInCache(g5, Held, F) == {};
    assert TxsInCache(g5, Held, F2) == {};
    Accepts(g5, fF3, gF2);
    var d := DraftFor(g5, fF3, gF2);
    assert !ExtendedWithin(dG, gP, 7) && !ExtendedWithin(gF, gP, 8) && !ExtendedWithin(gF2, gP, 9);
    assert !ExtendedWithin(d, gP, 10);
  }

  lemma RepeatMissed()
    ensures Overlooked(g5, fF3, F, 7)
  {
    assert Extends(F2, F);
    assert GetDraft(g5, Held, F2) == Some(gF2) && GetDraft(g5, Held, F) == None;
    assert !Walked(g5, Held, F, F);
    assert !Walked(g5, Held, F2, F);
  }

  /** From a regulation on genesis, after an honest run that commits `P` and so prunes the draft
      `F` with its transaction, an honest proposal on the rest of that fork is accepted although it
      repeats the transaction. It gets no vote. */
  lemma PrunedForkRepeats() returns (start: State, es: seq<Event>, m: Proposal)
    ensures Sane(start.lastCommitted, start) && HonestRun(start, es)
    ensures var s := Run(start, es);
      Honest(s, Propose(m)) && Accept(s, m).Some? && !NoRepeat(ChainTxs(m.block)) && !VotesFor(s, m)
  {
    start, m := g0, fF3;
    StartsAtGenesis();
    es := ForkRun();
    PlainRunIsHonest(dG, g0, es);
    HeldIsTrunk();
    RepeatAccepted();
    RepeatMissed();
    NumbersF();
    RepeatsIff(g5, fF3);
  }

  // ---------- a transaction in a block whose state cannot be opened ----------

  const F4: Block := Block(F, MBlock, [7], 1)
  const fF4: Proposal := Proposal(F4, 3, CertFor(F, 2), true, true, StateUnavailable, true, bare)
  const nF: Draft := Draft(2, F, 2, qcG, Some(dG), Some(dG), false, Success)
  const n1: State := State(map[Genesis := dG, F := nF], {}, 3, dG, 1, highG, 3, -1, [], false)

  lemma FirstF()
    ensures Step(g0, Propose(fF)) == n1
  {
    NumbersF();
    assert TxsInCache(g0, bare, Genesis) == {};
    UpdateSkips(AddIfAbsent(g0, nF), bare, qcG, dG);
    Votes(g0, fF, dG, highG);
  }

  lemma VotesF4()
    ensures VotesFor(n1, fF4) && Overlooked(n1, fF4, F, 7)
  {
    NumbersF();
    assert F4.Number() == 2 && GetDraft(n1, bare, F) == Some(nF);
    var d := Draft(4, F4, 3, CertFor(F, 2), Some(nF), Some(nF), false, Unprocessed);
    assert Accept(n1, fF4) == Some(d);
    assert ExtendedWithin(nF, dG, 9);
    assert ExtendedWithin(d, dG, 10);
  }

  /** From a regulation on genesis, after an honest proposal, one that repeats its transaction is
      accepted and voted for, because the state of the best block cannot be opened and so nothing
      is checked. */
  lemma UnopenedStateRepeats() returns (start: State, es: seq<Event>, m: Proposal)
    ensures Sane(start.lastCommitted, start) && HonestRun(start, es) && m.execution == StateUnavailable
    ensures var s := Run(start, es);
      VerifiedTxs(m) && StoreHolds(s, m.store) && VotesFor(s, m) && !NoRepeat(ChainTxs(m.block))
  {
    start, es, m := g0, [Propose(fF)] + [], fF4;
    StartsAtGenesis();
    NumbersF();
    BareHolds(g0, fF);
    FirstF();
    PlainFirst(g0, fF, n1, []);
    PlainRunIsHonest(dG, g0, es);
    VotesF4();
    BareHolds(n1, fF4);
    RepeatsIff(n1, fF4);
  }
}
