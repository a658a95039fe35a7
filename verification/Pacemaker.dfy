/** One replica's pacemaker between two regulations: what each message handler does to
    its state. The handlers are functions here; the class in module Replica performs
    them step by step. */
module Pacemaker {
  import opened Blocks
  import opened Drafts

  const TWO32: nat := 0x1_0000_0000

  /** Rounds are 32-bit unsigned integers and wrap around. */
  function Succ32(round: nat): nat {
    (round + 1) % TWO32
  }

  function Pred32(round: nat): nat {
    (round + TWO32 - 1) % TWO32
  }

  /** Conversion of a 32-bit unsigned integer to a signed one. */
  function Int32(round: nat): int {
    if round % TWO32 < 0x8000_0000 then round % TWO32 else round % TWO32 - TWO32
  }

  /** The part of the block store a handler may look at: stored blocks with the
      certificates they carry, and the number index of the trunk. */
  datatype Store = Store(blocks: map<Block, QC>, trunk: map<nat, Block>)

  /** `drafts` is the proposal map, `flagged` the handles of drafts whose committed flag
      was set, `log` the concatenation of all batches passed on for commit, and `halted`
      says that a handler dereferenced a missing node. */
  datatype State = State(
    drafts: map<Block, Draft>,
    flagged: set<nat>,
    nextHandle: nat,
    lastCommitted: Draft,
    lastVotingHeight: nat,
    qcHigh: DraftQC,
    currentRound: nat,
    lastOnBeatRound: int,
    log: seq<Commit>,
    halted: bool)

  predicate Committed(s: State, d: Draft) {
    d.fromStore || d.handle in s.flagged
  }

  // ---------- proposal map ----------

  /** The draft for a block: from the map, else rebuilt from the block store. */
  function GetDraft(s: State, store: Store, id: Block): Option<Draft> {
    if id in s.drafts then Some(s.drafts[id])
    else if id in store.blocks then
      var qc := store.blocks[id];
      Some(Draft(s.nextHandle, id, Succ32(qc.round), qc, None, None, true, Unprocessed))
    else None
  }

  /** The certificate names this draft; genesis needs no matching hash. */
  predicate MatchesQC(d: Draft, qc: QC) {
    d.Height() == qc.height && d.round == qc.round &&
    (d.Height() == 0 || qc.hash == d.block)
  }

  /** The only key under which a draft matching `qc` can be stored. */
  function EscortKey(qc: QC): Block {
    if qc.height == 0 then Genesis else qc.hash
  }

  function FromTrunk(s: State, store: Store, qc: QC): Option<Draft> {
    if qc.height in store.trunk && store.trunk[qc.height] in store.blocks &&
       store.trunk[qc.height].Number() == qc.height then
      var b := store.trunk[qc.height];
      Some(Draft(s.nextHandle, b, qc.round, store.blocks[b], None, None, true, Unprocessed))
    else None
  }

  /** The draft a certificate was issued for: from the map, else the trunk block at that
      height whatever its hash. */
  function GetByEscortQC(s: State, store: Store, qc: QC): (r: Option<Draft>)
    ensures r.Some? && !r.value.fromStore ==> EscortKey(qc) in s.drafts && r.value == s.drafts[EscortKey(qc)]
    ensures r.Some? ==> r.value.Height() == qc.height && r.value.round == qc.round
    ensures r.Some? && !r.value.fromStore ==> MatchesQC(r.value, qc)
  {
    var key := EscortKey(qc);
    if key in s.drafts && MatchesQC(s.drafts[key], qc) then Some(s.drafts[key])
    else FromTrunk(s, store, qc)
  }

  /** Drop everything below the committed draft and its siblings. */
  function PruneDrafts(drafts: map<Block, Draft>, last: Draft): map<Block, Draft> {
    map id | id in drafts && (id.Number() > last.Height() || id == last.block) :: drafts[id]
  }

  function PruneUpTo(s: State, last: Draft): State {
    s.(drafts := PruneDrafts(s.drafts, last),
       flagged := if last.block in s.drafts then s.flagged + {s.drafts[last.block].handle} else s.flagged)
  }

  // ---------- commit ----------

  /** Blocks that were not processed, were known already or only stop the committee are
      passed over without pruning. */
  predicate ReachesPruning(d: Draft) {
    d.processed == Success && !d.block.IsSBlock()
  }

  function OnCommit(s: State, batch: seq<Commit>): State
    decreases |batch|
  {
    if batch == [] then s
    else
      var d := batch[0].draft;
      OnCommit(if ReachesPruning(d) then PruneUpTo(s, d) else s, batch[1..])
  }

  datatype Verdict = Keep | Replace | Panic

  /** Whether a certificate replaces the highest one. The second comparison reads the
      node of the current highest certificate, which may be missing. */
  function JudgeQC(high: DraftQC, cand: DraftQC): Verdict {
    if cand.node.Some? && cand.qc.height > high.qc.height then Replace
    else if high.node.None? then Panic
    else if cand.qc.height == high.node.value.Height() && cand.qc.round > high.node.value.round then Replace
    else Keep
  }

  function UpdateQCHigh(s: State, cand: DraftQC): State {
    match JudgeQC(s.qcHigh, cand)
    case Keep => s
    case Replace => s.(qcHigh := cand)
    case Panic => s.(halted := true)
  }

  /** Certificate `qc` reached this replica: raise the highest certificate and, when the
      certified draft sits directly on the block its own certificate names, commit up to
      that block. */
  function Update(s: State, store: Store, qc: QC): State {
    match GetByEscortQC(s, store, qc)
    case None => s
    case Some(bPrime) =>
      if Committed(s, bPrime) then s
      else if bPrime.justify.None? then s.(halted := true)
      else
        var s1 := UpdateQCHigh(s, DraftQC(qc, Some(bPrime)));
        if s1.halted || bPrime.parent != bPrime.justify then s1
        else
          match CommitReady(bPrime, s.lastCommitted.Height())
          case None => s1.(halted := true)
          case Some(batch) =>
            var s2 := OnCommit(s1.(log := s1.log + batch), batch);
            s2.(lastCommitted := bPrime.justify.value)
  }

  // ---------- rounds ----------

  function EnterRound(s: State, round: nat, inCommittee: bool): State {
    if round > 0 && round < s.currentRound then s
    else if !inCommittee then s
    else s.(currentRound := round)
  }

  // ---------- proposals ----------

  /** What executing a proposed block reported. */
  datatype Execution = StateUnavailable | Failed | KnownBlock | Executed

  /** A proposal message with the verdicts of the checks outside this model: certificate
      and timeout certificate signatures, execution, and signing the vote. */
  datatype Proposal = Proposal(
    block: Block,
    round: nat,
    qc: QC,
    qcValid: bool,
    tcValid: bool,
    execution: Execution,
    signed: bool,
    store: Store)

  /** Transactions of `b` and of its ancestors, up to the first committed or missing draft. */
  function TxsInCache(s: State, store: Store, b: Block): set<TxId> {
    match GetDraft(s, store, b)
    case None => {}
    case Some(d) =>
      if Committed(s, d) then {}
      else (set t | t in b.Transactions()) +
           (if b.Genesis? then {} else TxsInCache(s, store, b.parent))
  }

  /** `None` when the proposal is refused, otherwise what processing leaves in the draft. */
  function ValidateProposal(s: State, m: Proposal): Option<Processed>
    requires m.block.Block?
  {
    if m.block.IsSBlock() && !m.block.parent.IsKBlock() && !m.block.parent.IsSBlock() then None
    else if m.execution == StateUnavailable then Some(Unprocessed)
    else if exists t :: t in m.block.txs && t in TxsInCache(s, m.store, m.block.parent) then None
    else match m.execution
      case Failed => None
      case KnownBlock => Some(Known)
      case Executed => Some(Success)
      case StateUnavailable => Some(Unprocessed)
  }

  /** Round 0 only directly after a KBlock or genesis; any other round follows its parent's
      unless a timeout certificate allows the jump. */
  predicate RoundAllowed(parent: Draft, round: nat, tcValid: bool) {
    (round == 0 ==> parent.Height() == 0 || parent.block.IsKBlock()) &&
    (round > 0 && Succ32(parent.round) != round ==>
      tcValid && (parent.block.IsKBlock() || parent.round < round))
  }

  /** The draft built for an acceptable proposal. */
  function Accept(s: State, m: Proposal): (r: Option<Draft>)
    ensures r.Some? ==> m.block.Block? && r.value.block == m.block && r.value.qc == m.qc && m.qcValid
    ensures r.Some? ==> r.value.round == m.round
    ensures r.Some? ==> r.value.parent == r.value.justify == GetDraft(s, m.store, m.block.parent)
    ensures r.Some? ==> r.value.parent.Some? && !r.value.fromStore
    ensures r.Some? ==> ValidateProposal(s, m) == Some(r.value.processed)
  {
    if m.block.Genesis? || m.block.Number() < s.lastCommitted.Height() then None
    else
      var parent := GetDraft(s, m.store, m.block.parent);
      if parent.None? || !m.qcValid || !RoundAllowed(parent.value, m.round, m.tcValid) then None
      else match ValidateProposal(s, m)
        case None => None
        case Some(p) =>
          Some(Draft(s.nextHandle + 1, m.block, m.round, m.qc, parent, parent, false, p))
  }

  function AddIfAbsent(s: State, d: Draft): State {
    s.(drafts := if d.block in s.drafts then s.drafts else s.drafts[d.block := d],
       nextHandle := s.nextHandle + 2)
  }

  /** Is `last` among `d` and its nearest ancestors, `hops` drafts in all? */
  function ExtendedWithin(d: Draft, last: Draft, hops: nat): bool {
    hops > 0 && (d == last || (d.parent.Some? && ExtendedWithin(d.parent.value, last, hops - 1)))
  }

  const MAX_HOPS: nat := 10

  predicate ExtendedFromLastCommitted(s: State, d: Draft) {
    ExtendedWithin(d, s.lastCommitted, MAX_HOPS)
  }

  /** The vote guard. */
  predicate VotesFor(s: State, m: Proposal) {
    !s.halted && Accept(s, m).Some? && m.signed &&
    m.block.Number() >= s.lastVotingHeight &&
    ExtendedFromLastCommitted(s, Accept(s, m).value)
  }

  function OnReceiveProposal(s: State, m: Proposal): State {
    if s.halted then s
    else match Accept(s, m)
      case None => s
      case Some(bnew) =>
        var s1 := AddIfAbsent(s, bnew);
        if !VotesFor(s, m) then s1
        else
          var s2 := Update(s1, m.store, m.qc);
          if s2.halted then s2
          else EnterRound(s2.(lastVotingHeight := m.block.Number()), Succ32(m.round), true)
  }

  // ---------- votes, timeouts, beats ----------

  /** A vote message; `formed` is the certificate its addition completed, if any. */
  datatype VoteMsg = VoteMsg(block: Block, round: nat, toNextProposer: bool, formed: Option<QC>, store: Store)

  predicate OutdatedVote(s: State, round: nat) {
    !(round == s.currentRound && round == 0) && round < Pred32(s.currentRound)
  }

  function OnReceiveVote(s: State, v: VoteMsg): State {
    if s.halted || OutdatedVote(s, v.round) || !v.toNextProposer then s
    else match GetDraft(s, v.store, v.block)
      case None => s
      case Some(b) =>
        if b.round != v.round || v.formed.None? then s
        else
          var cand := DraftQC(v.formed.value, Some(b));
          match JudgeQC(s.qcHigh, cand)
          case Keep => s
          case Panic => s.(halted := true)
          case Replace =>
            var s1 := Update(s.(qcHigh := cand, nextHandle := s.nextHandle + 1), v.store, v.formed.value);
            if s1.halted then s1 else EnterRound(s1, Succ32(v.round), true)
  }

  /** A timeout message: the sender's last vote, the certificate its addition completed, if any,
      and the sender's highest certificate. */
  datatype TimeoutMsg = TimeoutMsg(
    toProposer: bool,
    lastVote: Block,
    lastVoteRound: nat,
    formed: Option<QC>,
    qcHigh: QC,
    store: Store)

  function OnReceiveTimeout(s: State, t: TimeoutMsg): State {
    if s.halted || !t.toProposer then s
    else
      var s1 := AfterFormed(s, t);
      if s1.halted then s1
      else
        UpdateQCHigh(s1, DraftQC(t.qcHigh, GetByEscortQC(s1, t.store, t.qcHigh)))
          .(nextHandle := s1.nextHandle + 1)
  }

  /** The certificate completed by the vote in a timeout message takes effect first. */
  function AfterFormed(s: State, t: TimeoutMsg): State {
    if t.formed.None? then s else
      var raised := UpdateQCHigh(s, DraftQC(t.formed.value, GetByEscortQC(s, t.store, t.formed.value)));
      if raised.halted then raised
      else Update(raised.(nextHandle := s.nextHandle + 1), t.store, t.formed.value)
  }

  /** The contents chosen for a new block on the highest certificate's draft. */
  datatype Leaf = Leaf(kind: Kind, txs: seq<TxId>, salt: nat)

  /** A beat; `leaf` is `None` when no block could be built. */
  datatype BeatMsg = BeatMsg(epoch: nat, round: nat, amProposer: bool, leaf: Option<Leaf>, store: Store)

  /** The beat gets as far as building a proposal. */
  predicate Beats(s: State, curEpoch: nat, b: BeatMsg) {
    !s.halted && !(b.epoch < curEpoch) &&
    !(b.epoch == curEpoch && Int32(b.round) <= s.lastOnBeatRound) && b.amProposer
  }

  /** The draft of the block a beat builds on the highest certificate's draft, if any. */
  function BeatDraft(s: State, curEpoch: nat, b: BeatMsg): Option<Draft> {
    if !Beats(s, curEpoch, b) || b.leaf.None? then None
    else match GetByEscortQC(s, b.store, s.qcHigh.qc)
      case None => None
      case Some(parent) =>
        var block := Block(parent.block, b.leaf.value.kind, b.leaf.value.txs, b.leaf.value.salt);
        if block.Number() <= s.qcHigh.qc.height then None
        else Some(Draft(s.nextHandle + 1, block, b.round, s.qcHigh.qc, Some(parent), s.qcHigh.node, false, Success))
  }

  function OnBeat(s: State, curEpoch: nat, b: BeatMsg): State {
    if !Beats(s, curEpoch, b) then s
    else
      var s1 := s.(lastOnBeatRound := Int32(b.round));
      match BeatDraft(s, curEpoch, b)
      case None => s1
      case Some(d) => s1.(drafts := s1.drafts[d.block := d], nextHandle := s.nextHandle + 2)
  }

  // ---------- runs ----------

  datatype Event =
    | Propose(proposal: Proposal)
    | Vote(vote: VoteMsg)
    | Timeout(timeout: TimeoutMsg)
    | Beat(curEpoch: nat, beat: BeatMsg)
    | RoundTimeout(round: nat, inCommittee: bool)

  function Step(s: State, e: Event): State {
    match e
    case Propose(m) => OnReceiveProposal(s, m)
    case Vote(v) => OnReceiveVote(s, v)
    case Timeout(t) => OnReceiveTimeout(s, t)
    case Beat(epoch, b) => OnBeat(s, epoch, b)
    case RoundTimeout(round, inCommittee) =>
      if s.halted then s else EnterRound(s, Succ32(round), inCommittee)
  }

  function Run(s: State, es: seq<Event>): State
    decreases |es|
  {
    if es == [] then s else Run(Step(s, es[0]), es[1..])
  }
}
