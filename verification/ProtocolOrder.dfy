/** The parts of a replica's state that only move forward within a span. */
module ProtocolOrder {
  import opened Blocks
  import opened Drafts
  import opened Pacemaker
  import opened CommitRuns

  /** Certificates are ordered by height, then round. */
  predicate QCBelow(a: QC, b: QC) {
    a.height < b.height || (a.height == b.height && a.round < b.round)
  }

  /** The node paired with a certificate, if any, is the one the certificate names. */
  predicate Consistent(q: DraftQC) {
    q.node.Some? ==> q.node.value.Height() == q.qc.height && q.node.value.round == q.qc.round
  }

  /** Exactly the higher certificates replace the highest one, once both are paired with
      their drafts. */
  lemma ReplacesIffHigher(high: DraftQC, cand: DraftQC)
    requires Consistent(high) && high.node.Some? && cand.node.Some?
    ensures JudgeQC(high, cand) == Replace <==> QCBelow(high.qc, cand.qc)
    ensures JudgeQC(high, cand) != Panic
  {
  }

  /** A certificate paired with no draft still gets in, and leaves the next comparison with
      nothing to read, exactly when it repeats the highest height in a later round. */
  lemma UnpairedReplacesIff(high: DraftQC, cand: DraftQC)
    requires Consistent(high) && high.node.Some? && cand.node.None?
    ensures JudgeQC(high, cand) == Replace <==>
      cand.qc.height == high.qc.height && cand.qc.round > high.qc.round
    ensures JudgeQC(high, cand) == Replace ==>
      forall next: DraftQC :: JudgeQC(cand, next) == Panic <==> next.node.None? || next.qc.height <= cand.qc.height
  {
  }

  /** `t` is where `s` was or further on. */
  predicate NotBehind(s: State, t: State) {
    (t.qcHigh.qc == s.qcHigh.qc || QCBelow(s.qcHigh.qc, t.qcHigh.qc)) &&
    s.lastVotingHeight <= t.lastVotingHeight &&
    s.lastOnBeatRound <= t.lastOnBeatRound &&
    s.currentRound <= t.currentRound
  }

  /** Certificates completed by a vote carry that vote's height and round, beats belong to
      the current epoch, and the round counter is not about to wrap. */
  predicate Regular(e: Event) {
    match e
    case Propose(m) => m.round < TWO32 - 1
    case Vote(v) => v.round < TWO32 - 1 &&
      (v.formed.Some? ==> v.formed.value.height == v.block.Number() && v.formed.value.round == v.round)
    case Timeout(_) => true
    case Beat(epoch, b) => b.epoch <= epoch
    case RoundTimeout(round, _) => round < TWO32 - 1
  }

  lemma RaiseForward(s: State, cand: DraftQC)
    requires Consistent(s.qcHigh) && Consistent(cand)
    ensures var u := UpdateQCHigh(s, cand); NotBehind(s, u) && Consistent(u.qcHigh)
  {
  }

  lemma UpdateForward(s: State, store: Store, qc: QC)
    requires Coherent(s) && Consistent(s.qcHigh)
    ensures var u := Update(s, store, qc); NotBehind(s, u) && Consistent(u.qcHigh) && Coherent(u)
  {
    UpdateCoherent(s, store, qc);
    var r := GetByEscortQC(s, store, qc);
    if r.Some? {
      RaiseForward(s, DraftQC(qc, r));
    }
    if Commits(s, store, qc) {
      UpdateCommits(s, store, qc);
      var bPrime := r.value;
      var s1 := UpdateQCHigh(s, DraftQC(qc, r));
      var batch := CommitReady(bPrime, s.lastCommitted.Height()).value;
      OnCommitFrame(s1.(log := s1.log + batch), batch);
      assert Update(s, store, qc) == OnCommit(s1.(log := s1.log + batch), batch).(lastCommitted := bPrime.parent.value);
    } else {
      UpdateIdle(s, store, qc);
      assert Update(s, store, qc).qcHigh == s.qcHigh ||
             Update(s, store, qc).qcHigh == UpdateQCHigh(s, DraftQC(qc, r)).qcHigh;
    }
  }

  lemma ProposalForward(s: State, m: Proposal)
    requires Coherent(s) && Consistent(s.qcHigh) && Regular(Propose(m))
    ensures var t := OnReceiveProposal(s, m); NotBehind(s, t) && Consistent(t.qcHigh)
  {
    if !s.halted && Accept(s, m).Some? {
      var s1 := AddIfAbsent(s, Accept(s, m).value);
      assert NotBehind(s, s1);
      if VotesFor(s, m) {
        AcceptCoherent(s, m);
        UpdateForward(s1, m.store, m.qc);
      }
    }
  }

  lemma VoteForward(s: State, v: VoteMsg)
    requires Coherent(s) && Consistent(s.qcHigh) && Regular(Vote(v))
    ensures var t := OnReceiveVote(s, v); NotBehind(s, t) && Consistent(t.qcHigh)
  {
    if !s.halted && VoteRaises(s, v) {
      var cand := DraftQC(v.formed.value, GetDraft(s, v.store, v.block));
      assert Consistent(cand);
      RaiseForward(s, cand);
      UpdateForward(Raised(s, v), v.store, v.formed.value);
    }
  }

  lemma FormedForward(s: State, t: TimeoutMsg)
    requires Coherent(s) && Consistent(s.qcHigh)
    ensures var u := AfterFormed(s, t); NotBehind(s, u) && Consistent(u.qcHigh)
  {
    if t.formed.Some? {
      RaiseForward(s, DraftQC(t.formed.value, GetByEscortQC(s, t.store, t.formed.value)));
      if !FirstRaise(s, t).halted {
        UpdateForward(FirstRaise(s, t), t.store, t.formed.value);
      }
    }
  }

  lemma TimeoutForward(s: State, t: TimeoutMsg)
    requires Coherent(s) && Consistent(s.qcHigh)
    ensures var u := OnReceiveTimeout(s, t); NotBehind(s, u) && Consistent(u.qcHigh)
  {
    if !s.halted && t.toProposer {
      FormedForward(s, t);
      var s1 := AfterFormed(s, t);
      if !s1.halted {
        RaiseForward(s1, DraftQC(t.qcHigh, GetByEscortQC(s1, t.store, t.qcHigh)));
      }
    }
  }

  /** Every message moves the highest certificate, the voting height, the beat round and
      the current round forward or leaves them. */
  lemma StepForward(s: State, e: Event)
    requires Coherent(s) && Consistent(s.qcHigh) && Regular(e)
    ensures var t := Step(s, e); NotBehind(s, t) && Consistent(t.qcHigh) && Coherent(t)
  {
    StepCoherent(s, e);
    match e
    case Propose(m) => ProposalForward(s, m);
    case Vote(v) => VoteForward(s, v);
    case Timeout(t) => TimeoutForward(s, t);
    case Beat(epoch, b) => BeatCoherent(s, epoch, b);
    case RoundTimeout(_, _) =>
  }

  lemma RoundGoesBackIff(s: State, round: nat, inCommittee: bool)
    ensures EnterRound(s, round, inCommittee).currentRound < s.currentRound <==>
      round == 0 && inCommittee && s.currentRound > 0
  {
  }

  /** The round whose successor a message makes the replica enter, if any: that of a proposal it
      votes on, of a vote that raises its highest certificate, or of its own timer. */
  function LeftRound(s: State, e: Event): Option<nat> {
    if s.halted then None
    else match e
      case Propose(m) =>
        if VotesFor(s, m) && !Update(AddIfAbsent(s, Accept(s, m).value), m.store, m.qc).halted then Some(m.round) else None
      case Vote(v) =>
        if VoteRaises(s, v) && !Update(Raised(s, v), v.store, v.formed.value).halted then Some(v.round) else None
      case Timeout(_) => None
      case Beat(_, _) => None
      case RoundTimeout(round, inCommittee) => if inCommittee then Some(round) else None
  }

  lemma WrapsIff(round: nat)
    ensures Succ32(round) == 0 <==> round % TWO32 == TWO32 - 1
  {
  }

  lemma UpdateKeepsRound(s: State, store: Store, qc: QC)
    ensures Update(s, store, qc).currentRound == s.currentRound
  {
    if Commits(s, store, qc) {
      UpdateCommits(s, store, qc);
    } else {
      UpdateIdle(s, store, qc);
    }
  }

  lemma ProposalLeaves(s: State, m: Proposal)
    ensures var after := OnReceiveProposal(s, m).currentRound;
      match LeftRound(s, Propose(m))
      case None => after == s.currentRound
      case Some(round) => after == EnterRound(s, Succ32(round), true).currentRound
  {
    if VotesFor(s, m) {
      UpdateKeepsRound(AddIfAbsent(s, Accept(s, m).value), m.store, m.qc);
    }
  }

  lemma VoteLeaves(s: State, v: VoteMsg)
    ensures var after := OnReceiveVote(s, v).currentRound;
      match LeftRound(s, Vote(v))
      case None => after == s.currentRound
      case Some(round) => after == EnterRound(s, Succ32(round), true).currentRound
  {
    if VoteRaises(s, v) {
      UpdateKeepsRound(Raised(s, v), v.store, v.formed.value);
    }
  }

  lemma TimeoutKeepsRound(s: State, t: TimeoutMsg)
    ensures OnReceiveTimeout(s, t).currentRound == s.currentRound
  {
    if t.formed.Some? {
      UpdateKeepsRound(FirstRaise(s, t), t.store, t.formed.value);
    }
  }

  /** For every message: the round counter goes back exactly when the message enters the round
      after the last 32-bit one. */
  lemma StepGoesBackIff(s: State, e: Event)
    ensures Step(s, e).currentRound < s.currentRound <==>
      s.currentRound > 0 && LeftRound(s, e).Some? && LeftRound(s, e).value % TWO32 == TWO32 - 1
  {
    if LeftRound(s, e).Some? {
      WrapsIff(LeftRound(s, e).value);
      RoundGoesBackIff(s, Succ32(LeftRound(s, e).value), true);
    }
    match e
    case Propose(m) => ProposalLeaves(s, m);
    case Vote(v) => VoteLeaves(s, v);
    case Timeout(t) => TimeoutKeepsRound(s, t);
    case Beat(_, _) =>
    case RoundTimeout(_, _) =>
  }

  predicate RegularRun(es: seq<Event>) {
    forall k :: 0 <= k < |es| ==> Regular(es[k])
  }

  lemma {:induction false} RunForward(s: State, es: seq<Event>)
    requires Coherent(s) && Consistent(s.qcHigh) && RegularRun(es)
    ensures NotBehind(s, Run(s, es)) && Consistent(Run(s, es).qcHigh) && Coherent(Run(s, es))
    decreases |es|
  {
    if es != [] {
      StepForward(s, es[0]);
      RunForward(Step(s, es[0]), es[1..]);
    }
  }

  /** The message makes the replica build a proposal, in this round. */
  predicate ProposesIn(s: State, e: Event, round: nat) {
    e.Beat? && e.beat.round == round && Beats(s, e.curEpoch, e.beat)
  }

  /** Over every run proposals are built in strictly increasing rounds, so at most once in
      any one round. */
  lemma ProposesOncePerRound(s: State, e1: Event, between: seq<Event>, e2: Event, r1: nat, r2: nat)
    requires Coherent(s) && Consistent(s.qcHigh) && Regular(e1) && RegularRun(between) && Regular(e2)
    requires ProposesIn(s, e1, r1) && ProposesIn(Run(Step(s, e1), between), e2, r2)
    requires r1 < TWO32 && r2 < TWO32
    ensures Int32(r1) < Int32(r2)
    ensures r1 != r2
    ensures r2 < 0x8000_0000 && r1 < 0x8000_0000 ==> r1 < r2
  {
    StepForward(s, e1);
    RunForward(Step(s, e1), between);
  }
}
