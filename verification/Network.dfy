/** A committee of replicas, some of them arbitrary, exchanging signatures: which blocks
    get certified, in what order, and when all honest commits lie on one chain. */
module Network {
  import opened Quorum
  import opened Blocks
  import opened Drafts
  import opened Pacemaker
  import opened CommitRuns

  datatype Config = Config(n: nat, faulty: set<nat>) {
    predicate Valid() {
      n >= 1 && |faulty| <= MaxFaulty(n)
    }

    predicate Honest(i: nat) {
      i < n && i !in faulty
    }
  }

  /** Validator `voter` signed the voting hash of `block`. */
  datatype Sig = Sig(voter: nat, block: Block)

  /** All signatures in the order they were made, and the state of every replica. */
  datatype Net = Net(sigs: seq<Sig>, replicas: map<nat, State>)

  function Signers(c: Config, sigs: seq<Sig>, b: Block): (r: set<nat>)
    ensures r <= Committee(c.n)
  {
    set i | i in Committee(c.n) && Sig(i, b) in sigs
  }

  /** Enough committee members signed `b`. */
  predicate Certified(c: Config, sigs: seq<Sig>, b: Block) {
    IsQuorum(Signers(c, sigs, b), c.n)
  }

  // ---------- steps ----------

  /** The certificate check: exempt for the first two blocks, otherwise the hash, the vote
      count and the signatures of the marked committee members. */
  predicate VerifyQC(c: Config, sigs: seq<Sig>, b: Block, qc: QC) {
    (b.Number() == qc.height && b.Number() <= 1) ||
    (qc.hash == b && MajorityTwoThird(|qc.voters|, c.n) &&
     forall i :: i in qc.voters && i < c.n ==> Sig(i, b) in sigs)
  }

  /** Validated certificates are remembered without the block they were validated for. */
  ghost predicate Validated(c: Config, sigs: seq<Sig>, qc: QC) {
    exists b: Block :: VerifyQC(c, sigs, b, qc)
  }

  /** What a replica knows of a certificate it aggregated itself from votes on `block` in `round`:
      a quorum voted, and the honest ones signed the block. The hash is that of some vote, which
      only an arbitrary voter can have chosen freely; no signature is checked. */
  predicate Collected(c: Config, sigs: seq<Sig>, qc: QC, block: Block, round: nat) {
    qc.height == block.Number() && qc.round == round && IsQuorum(qc.voters, c.n) &&
    (forall i :: i in qc.voters && c.Honest(i) ==> Sig(i, block) in sigs) &&
    (qc.hash == block || HasArbitrary(c, qc.voters))
  }

  predicate HasArbitrary(c: Config, voters: set<nat>) {
    exists i :: i in voters && !c.Honest(i)
  }

  datatype NetEvent =
    | Forge(voter: nat, block: Block)
    | Deliver(to: nat, event: Event)

  /** Arbitrary validators sign anything; a message reaching an honest one passes its
      certificate checks only as far as the signatures made so far allow. */
  ghost predicate Allowed(c: Config, net: Net, ne: NetEvent) {
    match ne
    case Forge(v, _) => !c.Honest(v)
    case Deliver(i, e) =>
      c.Honest(i) && i in net.replicas &&
      match e
      case Propose(m) => m.qcValid ==> Validated(c, net.sigs, m.qc)
      case Vote(v) => v.formed.Some? ==> Collected(c, net.sigs, v.formed.value, v.block, v.round)
      case Timeout(t) => t.formed.Some? ==> Collected(c, net.sigs, t.formed.value, t.lastVote, t.lastVoteRound)
      case Beat(_, _) => true
      case RoundTimeout(_, _) => true
  }

  /** The signature a replica makes when handling a message. */
  function NewSigs(i: nat, s: State, e: Event): seq<Sig> {
    if e.Propose? && VotesFor(s, e.proposal) then [Sig(i, e.proposal.block)] else []
  }

  function NetStep(net: Net, ne: NetEvent): Net
    requires ne.Deliver? ==> ne.to in net.replicas
  {
    match ne
    case Forge(v, b) => net.(sigs := net.sigs + [Sig(v, b)])
    case Deliver(i, e) =>
      var s := net.replicas[i];
      Net(net.sigs + NewSigs(i, s, e), net.replicas[i := Step(s, e)])
  }

  /** `net'` results from `net` by the allowed steps `run`. */
  ghost predicate NetRun(c: Config, net: Net, run: seq<NetEvent>, net': Net)
    decreases |run|
  {
    if run == [] then net == net'
    else Allowed(c, net, run[0]) && NetRun(c, NetStep(net, run[0]), run[1..], net')
  }

  /** Before any vote of the span. */
  predicate Initial(c: Config, net: Net) {
    net.sigs == [] &&
    forall i :: i in net.replicas ==> Coherent(net.replicas[i]) && net.replicas[i].log == []
  }

  // ---------- order of signatures ----------

  /** Honest replicas never sign below their voting height, so their signatures are in
      order of height. */
  ghost predicate Ordered(c: Config, net: Net) {
    (forall k :: 0 <= k < |net.sigs| && c.Honest(net.sigs[k].voter) ==>
      net.sigs[k].voter in net.replicas &&
      (net.replicas[net.sigs[k].voter].halted ||
       net.sigs[k].block.Number() <= net.replicas[net.sigs[k].voter].lastVotingHeight)) &&
    HeightsAscend(c, net.sigs)
  }

  predicate HeightsAscend(c: Config, sigs: seq<Sig>) {
    forall j, k :: 0 <= j < k < |sigs| && SameHonest(c, sigs[j], sigs[k]) ==>
      sigs[j].block.Number() <= sigs[k].block.Number()
  }

  lemma VotingHeightStep(s: State, e: Event)
    ensures s.halted ==> Step(s, e) == s
    ensures Step(s, e).lastVotingHeight >= s.lastVotingHeight
    ensures e.Propose? && VotesFor(s, e.proposal) && !Step(s, e).halted ==>
      Step(s, e).lastVotingHeight == e.proposal.block.Number()
  {
    match e
    case Propose(m) =>
      if VotesFor(s, m) {
        UpdateFrame(AddIfAbsent(s, Accept(s, m).value), m.store, m.qc);
      }
    case Vote(v) =>
      if VoteRaises(s, v) {
        UpdateFrame(Raised(s, v), v.store, v.formed.value);
      }
    case Timeout(t) =>
      if t.formed.Some? {
        UpdateFrame(FirstRaise(s, t), t.store, t.formed.value);
      }
    case Beat(_, _) =>
    case RoundTimeout(_, _) =>
  }

  lemma UpdateFrame(s: State, store: Store, qc: QC)
    ensures Update(s, store, qc).lastVotingHeight == s.lastVotingHeight
  {
    if Commits(s, store, qc) {
      UpdateCommits(s, store, qc);
    } else {
      UpdateIdle(s, store, qc);
    }
  }

  lemma StepKeepsOrder(c: Config, net: Net, ne: NetEvent)
    requires Ordered(c, net) && Allowed(c, net, ne)
    ensures Ordered(c, NetStep(net, ne))
  {
    var net' := NetStep(net, ne);
    if ne.Deliver? {
      var s := net.replicas[ne.to];
      VotingHeightStep(s, ne.event);
      if NewSigs(ne.to, s, ne.event) != [] {
        assert net'.sigs == net.sigs + [Sig(ne.to, ne.event.proposal.block)];
        forall j | 0 <= j < |net.sigs| && net.sigs[j].voter == ne.to
          ensures net.sigs[j].block.Number() <= ne.event.proposal.block.Number()
        {
        }
      } else {
        assert net'.sigs == net.sigs;
      }
    } else {
      assert net'.sigs == net.sigs + [Sig(ne.voter, ne.block)];
    }
  }

  lemma {:induction false} RunKeepsOrder(c: Config, net: Net, run: seq<NetEvent>, net': Net)
    requires Ordered(c, net) && NetRun(c, net, run, net')
    ensures Ordered(c, net')
    decreases |run|
  {
    if run != [] {
      StepKeepsOrder(c, net, run[0]);
      RunKeepsOrder(c, NetStep(net, run[0]), run[1..], net');
    }
  }

  /** Every honest validator that signed both blocks signed `low` before `high`. */
  predicate SignedFirst(c: Config, sigs: seq<Sig>, low: Block, high: Block) {
    forall p, q :: 0 <= p < |sigs| && 0 <= q < |sigs| && SameHonest(c, sigs[p], sigs[q]) ==>
      (sigs[p].block == low && sigs[q].block == high ==> p < q)
  }

  predicate SameHonest(c: Config, a: Sig, b: Sig) {
    a.voter == b.voter && c.Honest(a.voter)
  }

  lemma AscendingSignsLowFirst(c: Config, sigs: seq<Sig>, low: Block, high: Block)
    requires HeightsAscend(c, sigs) && low.Number() < high.Number()
    ensures SignedFirst(c, sigs, low, high)
  {
    forall p, q | 0 <= p < |sigs| && 0 <= q < |sigs| && SameHonest(c, sigs[p], sigs[q]) &&
                  sigs[p].block == low && sigs[q].block == high
      ensures p < q
    {
      if q < p {
        assert false;
      }
    }
  }

  /** In every run: when blocks at two heights are certified, more validators than may be
      faulty signed both, and every honest one of them signed the lower block first. */
  lemma CertificatesInOrder(c: Config, net: Net, run: seq<NetEvent>, net': Net, low: Block, high: Block)
    requires c.Valid() && Initial(c, net) && NetRun(c, net, run, net')
    requires Certified(c, net'.sigs, low) && Certified(c, net'.sigs, high) && low.Number() < high.Number()
    ensures |Signers(c, net'.sigs, low) * Signers(c, net'.sigs, high)| >= MaxFaulty(c.n) + 1
    ensures SignedFirst(c, net'.sigs, low, high)
  {
    QuorumsOverlap(c.n, Signers(c, net'.sigs, low), Signers(c, net'.sigs, high));
    assert Ordered(c, net);
    RunKeepsOrder(c, net, run, net');
    AscendingSignsLowFirst(c, net'.sigs, low, high);
  }

  // ---------- agreement ----------

  /** No honest validator signed two blocks at one height. */
  predicate SingleSigned(c: Config, sigs: seq<Sig>) {
    forall j, k :: 0 <= j < |sigs| && 0 <= k < |sigs| && SameHonest(c, sigs[j], sigs[k]) ==>
      (sigs[j].block.Number() == sigs[k].block.Number() ==> sigs[j].block == sigs[k].block)
  }

  /** Committee members that signed `b`, or are arbitrary and may pass for voters on it. */
  function Supporters(c: Config, sigs: seq<Sig>, b: Block): (r: set<nat>)
    ensures r <= Committee(c.n)
  {
    set i | i in Committee(c.n) && (c.Honest(i) ==> Sig(i, b) in sigs)
  }

  predicate Supported(c: Config, sigs: seq<Sig>, b: Block) {
    IsQuorum(Supporters(c, sigs, b), c.n)
  }

  lemma QuorumGrows(a: set<nat>, b: set<nat>, n: nat)
    requires IsQuorum(a, n) && a <= b <= Committee(n)
    ensures IsQuorum(b, n)
  {
    SubsetSize(a, b);
    MajorityIsIntegral(|a|, n);
    MajorityIsIntegral(|b|, n);
  }

  lemma CertifiedIsSupported(c: Config, sigs: seq<Sig>, b: Block)
    requires Certified(c, sigs, b)
    ensures Supported(c, sigs, b)
  {
    QuorumGrows(Signers(c, sigs, b), Supporters(c, sigs, b), c.n);
  }

  /** At most one block per height is supported, let alone certified. */
  lemma OneCertificatePerHeight(c: Config, sigs: seq<Sig>, a: Block, b: Block)
    requires c.Valid() && SingleSigned(c, sigs)
    requires Supported(c, sigs, a) && Supported(c, sigs, b) && a.Number() == b.Number()
    ensures a == b
  {
    var v := QuorumsShareHonest(c.n, Supporters(c, sigs, a), Supporters(c, sigs, b), c.faulty);
    assert Sig(v, a) in sigs && Sig(v, b) in sigs;
  }

  /** Above height 1 the marked committee members alone pass the threshold: bits beyond the
      committee, which are counted but have no key, do not decide. */
  predicate Counted(c: Config, qc: QC) {
    qc.height > 1 ==> MajorityTwoThird(|qc.voters * Committee(c.n)|, c.n)
  }

  /** The certificate names the proposal's parent and is for a height at which certificates are
      checked, unless the parent is one of the first two blocks. */
  predicate Named(m: Proposal) {
    m.block.Block? && m.block.parent.Number() > 1 ==> m.qc.hash == m.block.parent && m.qc.height > 1
  }

  /** Above height 1 a collected certificate carries the hash of the block voted on. */
  predicate Truthful(qc: QC, block: Block) {
    qc.height > 1 ==> qc.hash == block
  }

  /** An accepted certificate is counted right and names the parent, a collected one is truthful. */
  predicate Sound(c: Config, ne: NetEvent) {
    ne.Deliver? ==>
      match ne.event
      case Propose(m) => m.qcValid ==> Counted(c, m.qc) && Named(m)
      case Vote(v) => v.formed.Some? ==> Truthful(v.formed.value, v.block)
      case Timeout(t) => t.formed.Some? ==> Truthful(t.formed.value, t.lastVote)
      case Beat(_, _) => true
      case RoundTimeout(_, _) => true
  }

  predicate SoundRun(c: Config, run: seq<NetEvent>) {
    forall k :: 0 <= k < |run| ==> Sound(c, run[k])
  }

  /** Honest signatures rest on certified parents. */
  predicate Rooted(c: Config, sigs: seq<Sig>) {
    forall k :: 0 <= k < |sigs| && c.Honest(sigs[k].voter) ==> ParentCertified(c, sigs, sigs[k].block)
  }

  predicate ParentCertified(c: Config, sigs: seq<Sig>, b: Block) {
    b.Block? && (b.parent.Number() > 1 ==> Certified(c, sigs, b.parent))
  }

  lemma CertifiedGrows(c: Config, sigs: seq<Sig>, more: seq<Sig>, b: Block)
    requires Certified(c, sigs, b)
    ensures Certified(c, sigs + more, b)
  {
    QuorumGrows(Signers(c, sigs, b), Signers(c, sigs + more, b), c.n);
  }

  lemma SupportedGrows(c: Config, sigs: seq<Sig>, more: seq<Sig>, b: Block)
    requires Supported(c, sigs, b)
    ensures Supported(c, sigs + more, b)
  {
    QuorumGrows(Supporters(c, sigs, b), Supporters(c, sigs + more, b), c.n);
  }

  /** So the parent of a supported block is certified. */
  lemma SupportedParent(c: Config, sigs: seq<Sig>, b: Block)
    requires c.Valid() && Rooted(c, sigs) && Supported(c, sigs, b)
    ensures ParentCertified(c, sigs, b)
  {
    var s := Supporters(c, sigs, b);
    var v := QuorumsShareHonest(c.n, s, s, c.faulty);
    assert Sig(v, b) in sigs;
  }

  lemma {:induction false} SupportedAncestor(c: Config, sigs: seq<Sig>, b: Block, h: nat)
    requires c.Valid() && Rooted(c, sigs) && Supported(c, sigs, b) && 2 <= h <= b.Number()
    ensures Supported(c, sigs, AncestorAt(b, h))
  {
    if b.Number() > h {
      SupportedParent(c, sigs, b);
      CertifiedIsSupported(c, sigs, b.parent);
      SupportedAncestor(c, sigs, b.parent, h);
    }
  }

  /** Under the single-signature hypothesis, of two supported blocks the higher extends
      the lower. */
  lemma SupportedOnOneChain(c: Config, sigs: seq<Sig>, low: Block, high: Block)
    requires c.Valid() && Rooted(c, sigs) && SingleSigned(c, sigs)
    requires Supported(c, sigs, low) && Supported(c, sigs, high) && 2 <= low.Number() <= high.Number()
    ensures Extends(high, low)
  {
    SupportedAncestor(c, sigs, high, low.Number());
    OneCertificatePerHeight(c, sigs, AncestorAt(high, low.Number()), low);
  }

  /** A committed block has a supported child. */
  ghost predicate Secured(c: Config, sigs: seq<Sig>, b: Block) {
    b.Number() >= 1 && exists child: Block :: SupportedChild(c, sigs, child, b)
  }

  predicate SupportedChild(c: Config, sigs: seq<Sig>, child: Block, b: Block) {
    child.Block? && child.parent == b && Supported(c, sigs, child)
  }

  ghost predicate LogSecured(c: Config, sigs: seq<Sig>, log: seq<Commit>) {
    forall k :: 0 <= k < |log| ==> Secured(c, sigs, log[k].draft.block)
  }

  lemma LogSecuredGrows(c: Config, sigs: seq<Sig>, more: seq<Sig>, log: seq<Commit>)
    requires LogSecured(c, sigs, log)
    ensures LogSecured(c, sigs + more, log)
  {
    forall k | 0 <= k < |log|
      ensures Secured(c, sigs + more, log[k].draft.block)
    {
      var child :| SupportedChild(c, sigs, child, log[k].draft.block);
      SupportedGrows(c, sigs, more, child);
      assert SupportedChild(c, sigs + more, child, log[k].draft.block);
    }
  }

  lemma RootedGrows(c: Config, sigs: seq<Sig>, more: seq<Sig>, b: Block)
    requires ParentCertified(c, sigs, b)
    ensures ParentCertified(c, sigs + more, b)
  {
    if b.parent.Number() > 1 {
      CertifiedGrows(c, sigs, more, b.parent);
    }
  }

  /** Two blocks with supported children lie on one chain. */
  lemma SecuredOnOneChain(c: Config, sigs: seq<Sig>, a: Block, b: Block)
    requires c.Valid() && Rooted(c, sigs) && SingleSigned(c, sigs)
    requires Secured(c, sigs, a) && Secured(c, sigs, b) && a.Number() <= b.Number()
    ensures Extends(b, a)
  {
    var ca :| SupportedChild(c, sigs, ca, a);
    var cb :| SupportedChild(c, sigs, cb, b);
    SupportedOnOneChain(c, sigs, ca, cb);
    if ca != cb {
      ExtendsTransitive(b, ca, a);
    }
  }

  // ---------- what every sound step keeps ----------

  /** Honest signatures rest on certified parents and honest commits have supported children. */
  ghost predicate Trustworthy(c: Config, net: Net) {
    Rooted(c, net.sigs) &&
    forall i :: c.Honest(i) && i in net.replicas ==>
      Coherent(net.replicas[i]) && LogSecured(c, net.sigs, net.replicas[i].log)
  }

  /** A certificate that makes a replica commit, above height 1, stands for a quorum. */
  predicate Backed(c: Config, sigs: seq<Sig>, qc: QC) {
    qc.height > 1 ==> Supported(c, sigs, qc.hash)
  }

  /** Every voter signed the hash. */
  predicate FullySigned(c: Config, sigs: seq<Sig>, qc: QC) {
    IsQuorum(qc.voters, c.n) && forall i :: i in qc.voters ==> Sig(i, qc.hash) in sigs
  }

  lemma FullySignedIsCertified(c: Config, sigs: seq<Sig>, qc: QC)
    requires FullySigned(c, sigs, qc)
    ensures Certified(c, sigs, qc.hash)
  {
    QuorumGrows(qc.voters, Signers(c, sigs, qc.hash), c.n);
  }

  lemma ValidatedBacked(c: Config, sigs: seq<Sig>, qc: QC)
    requires Validated(c, sigs, qc) && Counted(c, qc)
    ensures qc.height > 1 ==> Certified(c, sigs, qc.hash)
    ensures Backed(c, sigs, qc)
  {
    if qc.height > 1 {
      var b :| VerifyQC(c, sigs, b, qc);
      FullySignedIsCertified(c, sigs, qc.(voters := qc.voters * Committee(c.n)));
      CertifiedIsSupported(c, sigs, qc.hash);
    }
  }

  lemma CollectedBacked(c: Config, sigs: seq<Sig>, qc: QC, block: Block, round: nat)
    requires Collected(c, sigs, qc, block, round) && Truthful(qc, block)
    ensures Backed(c, sigs, qc)
  {
    if qc.height > 1 {
      QuorumGrows(qc.voters, Supporters(c, sigs, block), c.n);
    }
  }

  /** The collector's guard: above height 1 a certificate collected from votes on `block` has its
      hash backed by a quorum, whatever was signed so far, exactly when that is the hash of
      `block`. */
  lemma BackedIffTruthful(c: Config, qc: QC, block: Block, round: nat)
    requires c.Valid() && qc.height == block.Number() > 1 && qc.round == round && IsQuorum(qc.voters, c.n)
    requires HasArbitrary(c, qc.voters)
    ensures (forall sigs :: Collected(c, sigs, qc, block, round) ==> Backed(c, sigs, qc)) <==> qc.hash == block
  {
    if qc.hash == block {
      forall sigs | Collected(c, sigs, qc, block, round)
        ensures Backed(c, sigs, qc)
      {
        CollectedBacked(c, sigs, qc, block, round);
      }
    } else {
      var sigs := MarkedSigs(qc.voters, block, c.n);
      assert Collected(c, sigs, qc, block, round);
      OnlyOneSupported(c, sigs, qc.hash, block);
      assert !Backed(c, sigs, qc);
    }
  }

  /** A block nobody signed is not supported. */
  lemma OnlyOneSupported(c: Config, sigs: seq<Sig>, b: Block, block: Block)
    requires c.Valid() && b != block && forall k :: 0 <= k < |sigs| ==> sigs[k].block == block
    ensures !Supported(c, sigs, b)
  {
    if Supported(c, sigs, b) {
      var s := Supporters(c, sigs, b);
      var v := QuorumsShareHonest(c.n, s, s, c.faulty);
      assert false;
    }
  }

  /** The receiver's first guard: above height 1 a certificate that was validated for some block
      verifies for another one exactly when it names it. */
  lemma VerifiesIffNames(c: Config, sigs: seq<Sig>, b: Block, qc: QC)
    requires Validated(c, sigs, qc) && qc.height > 1 && b.Number() > 1
    ensures VerifyQC(c, sigs, b, qc) <==> qc.hash == b
  {
    var some :| VerifyQC(c, sigs, some, qc);
  }

  /** Signatures of exactly the marked validators below `n`. */
  function MarkedSigs(marked: set<nat>, b: Block, n: nat): (sigs: seq<Sig>)
    ensures forall i: nat :: Sig(i, b) in sigs <==> i in marked && i < n
    ensures forall k :: 0 <= k < |sigs| ==> sigs[k].block == b
  {
    if n == 0 then []
    else MarkedSigs(marked, b, n - 1) + if n - 1 in marked then [Sig(n - 1, b)] else []
  }

  /** The receiver's second guard: a certificate that passes the vote count stands for a quorum
      of signers, whatever was signed so far, exactly when it is counted right. */
  lemma QuorumIffCounted(c: Config, qc: QC)
    requires qc.height > 1 && MajorityTwoThird(|qc.voters|, c.n)
    ensures (forall sigs :: Validated(c, sigs, qc) ==> Certified(c, sigs, qc.hash)) <==> Counted(c, qc)
  {
    if Counted(c, qc) {
      forall sigs | Validated(c, sigs, qc)
        ensures Certified(c, sigs, qc.hash)
      {
        ValidatedBacked(c, sigs, qc);
      }
    } else {
      var sigs := MarkedSigs(qc.voters, qc.hash, c.n);
      assert VerifyQC(c, sigs, qc.hash, qc);
      assert Signers(c, sigs, qc.hash) == qc.voters * Committee(c.n);
      assert Validated(c, sigs, qc) && !Certified(c, sigs, qc.hash);
    }
  }

  /** Every block of a commit batch below a supported draft has a supported child. */
  lemma {:induction false} BatchSecured(c: Config, sigs: seq<Sig>, d: Draft, floor: nat)
    requires c.Valid() && Rooted(c, sigs) && Linked(d) && CommitReady(d, floor).Some?
    requires d.Height() > 1 ==> Supported(c, sigs, d.block)
    ensures LogSecured(c, sigs, CommitReady(d, floor).value)
  {
    var p := d.parent.value;
    if p.Height() > floor {
      if p.Height() > 1 {
        SupportedParent(c, sigs, d.block);
        CertifiedIsSupported(c, sigs, p.block);
      }
      BatchSecured(c, sigs, p, floor);
      assert SupportedChild(c, sigs, d.block, p.block);
      var rest := CommitReady(p, floor).value;
      assert CommitReady(d, floor).value == rest + [Commit(p, d.qc)];
    }
  }

  lemma UpdateSecured(c: Config, sigs: seq<Sig>, s: State, store: Store, qc: QC)
    requires c.Valid() && Rooted(c, sigs) && Coherent(s) && LogSecured(c, sigs, s.log) && Backed(c, sigs, qc)
    ensures LogSecured(c, sigs, Update(s, store, qc).log)
  {
    if Commits(s, store, qc) {
      UpdateCommits(s, store, qc);
      var bPrime := GetByEscortQC(s, store, qc).value;
      BatchSecured(c, sigs, bPrime, s.lastCommitted.Height());
    } else {
      UpdateIdle(s, store, qc);
    }
  }

  /** The certificates an event hands to a replica are backed. */
  ghost predicate EventBacked(c: Config, sigs: seq<Sig>, e: Event) {
    match e
    case Propose(m) => m.qcValid ==> Backed(c, sigs, m.qc)
    case Vote(v) => v.formed.Some? ==> Backed(c, sigs, v.formed.value)
    case Timeout(t) => t.formed.Some? ==> Backed(c, sigs, t.formed.value)
    case Beat(_, _) => true
    case RoundTimeout(_, _) => true
  }

  /** Whatever a replica commits on backed certificates has supported children. */
  lemma ProposalSecured(c: Config, sigs: seq<Sig>, s: State, m: Proposal)
    requires c.Valid() && Rooted(c, sigs) && Coherent(s) && LogSecured(c, sigs, s.log) && EventBacked(c, sigs, Propose(m))
    ensures LogSecured(c, sigs, OnReceiveProposal(s, m).log)
  {
    if !s.halted && Accept(s, m).Some? {
      ProposalCore(s, m);
      AcceptCoherent(s, m);
      UpdateSecured(c, sigs, AddIfAbsent(s, Accept(s, m).value), m.store, m.qc);
    }
  }

  lemma VoteSecured(c: Config, sigs: seq<Sig>, s: State, v: VoteMsg)
    requires c.Valid() && Rooted(c, sigs) && Coherent(s) && LogSecured(c, sigs, s.log) && EventBacked(c, sigs, Vote(v))
    ensures LogSecured(c, sigs, OnReceiveVote(s, v).log)
  {
    VoteCore(s, v);
    if VoteRaises(s, v) {
      UpdateSecured(c, sigs, Raised(s, v), v.store, v.formed.value);
    }
  }

  lemma TimeoutSecured(c: Config, sigs: seq<Sig>, s: State, t: TimeoutMsg)
    requires c.Valid() && Rooted(c, sigs) && Coherent(s) && LogSecured(c, sigs, s.log) && EventBacked(c, sigs, Timeout(t))
    ensures LogSecured(c, sigs, OnReceiveTimeout(s, t).log)
  {
    TimeoutCore(s, t);
    if TimeoutRaises(s, t) {
      UpdateSecured(c, sigs, FirstRaise(s, t), t.store, t.formed.value);
    }
  }

  lemma LocalStepSecured(c: Config, sigs: seq<Sig>, s: State, e: Event)
    requires c.Valid() && Rooted(c, sigs) && Coherent(s) && LogSecured(c, sigs, s.log) && EventBacked(c, sigs, e)
    ensures LogSecured(c, sigs, Step(s, e).log)
  {
    match e
    case Propose(m) => ProposalSecured(c, sigs, s, m);
    case Vote(v) => VoteSecured(c, sigs, s, v);
    case Timeout(t) => TimeoutSecured(c, sigs, s, t);
    case Beat(_, _) =>
    case RoundTimeout(_, _) =>
  }

  /** An honest vote above height 2 rests on the certificate its proposal carried. */
  lemma VoteRooted(c: Config, net: Net, i: nat, m: Proposal)
    requires c.Valid() && Allowed(c, net, Deliver(i, Propose(m))) && Sound(c, Deliver(i, Propose(m)))
    requires VotesFor(net.replicas[i], m)
    ensures ParentCertified(c, net.sigs, m.block)
  {
    if m.block.parent.Number() > 1 {
      ValidatedBacked(c, net.sigs, m.qc);
    }
  }

  lemma EventIsBacked(c: Config, net: Net, i: nat, e: Event)
    requires Allowed(c, net, Deliver(i, e)) && Sound(c, Deliver(i, e))
    ensures EventBacked(c, net.sigs, e)
  {
    match e
    case Propose(m) =>
      if m.qcValid {
        ValidatedBacked(c, net.sigs, m.qc);
      }
    case Vote(v) =>
      if v.formed.Some? {
        CollectedBacked(c, net.sigs, v.formed.value, v.block, v.round);
      }
    case Timeout(t) =>
      if t.formed.Some? {
        CollectedBacked(c, net.sigs, t.formed.value, t.lastVote, t.lastVoteRound);
      }
    case Beat(_, _) =>
    case RoundTimeout(_, _) =>
  }

  lemma MoreSigsTrustworthy(c: Config, net: Net, sig: Sig)
    requires Trustworthy(c, net)
    requires c.Honest(sig.voter) ==> ParentCertified(c, net.sigs, sig.block)
    ensures Trustworthy(c, net.(sigs := net.sigs + [sig]))
  {
    var sigs' := net.sigs + [sig];
    forall k | 0 <= k < |sigs'| && c.Honest(sigs'[k].voter)
      ensures ParentCertified(c, sigs', sigs'[k].block)
    {
      RootedGrows(c, net.sigs, [sig], sigs'[k].block);
    }
    forall i | c.Honest(i) && i in net.replicas
      ensures LogSecured(c, sigs', net.replicas[i].log)
    {
      LogSecuredGrows(c, net.sigs, [sig], net.replicas[i].log);
    }
  }

  lemma StepKeepsTrust(c: Config, net: Net, ne: NetEvent)
    requires c.Valid() && Trustworthy(c, net) && Allowed(c, net, ne) && Sound(c, ne)
    ensures Trustworthy(c, NetStep(net, ne))
  {
    match ne
    case Forge(v, b) => MoreSigsTrustworthy(c, net, Sig(v, b));
    case Deliver(i, e) =>
      var s := net.replicas[i];
      EventIsBacked(c, net, i, e);
      LocalStepSecured(c, net.sigs, s, e);
      StepCoherent(s, e);
      var net1 := net.(replicas := net.replicas[i := Step(s, e)]);
      assert Trustworthy(c, net1);
      if NewSigs(i, s, e) != [] {
        VoteRooted(c, net, i, e.proposal);
        MoreSigsTrustworthy(c, net1, Sig(i, e.proposal.block));
      } else {
        assert net.sigs + NewSigs(i, s, e) == net.sigs;
      }
  }

  lemma {:induction false} RunKeepsTrust(c: Config, net: Net, run: seq<NetEvent>, net': Net)
    requires c.Valid() && Trustworthy(c, net) && NetRun(c, net, run, net') && SoundRun(c, run)
    ensures Trustworthy(c, net')
    decreases |run|
  {
    if run != [] {
      StepKeepsTrust(c, net, run[0]);
      RunKeepsTrust(c, NetStep(net, run[0]), run[1..], net');
    }
  }

  /** In every sound run in which no honest validator signs two blocks at one height, any
      two blocks committed by honest replicas lie on one chain. */
  lemma Agreement(c: Config, net: Net, run: seq<NetEvent>, net': Net, i: nat, j: nat, x: nat, y: nat)
    requires c.Valid() && Initial(c, net) && NetRun(c, net, run, net') && SoundRun(c, run)
    requires SingleSigned(c, net'.sigs)
    requires c.Honest(i) && i in net'.replicas && x < |net'.replicas[i].log|
    requires c.Honest(j) && j in net'.replicas && y < |net'.replicas[j].log|
    ensures var a := net'.replicas[i].log[x].draft.block;
      var b := net'.replicas[j].log[y].draft.block;
      Extends(b, a) || Extends(a, b)
  {
    assert Trustworthy(c, net);
    RunKeepsTrust(c, net, run, net');
    var a := net'.replicas[i].log[x].draft.block;
    var b := net'.replicas[j].log[y].draft.block;
    if a.Number() <= b.Number() {
      SecuredOnOneChain(c, net'.sigs, a, b);
    } else {
      SecuredOnOneChain(c, net'.sigs, b, a);
    }
  }

  // ---------- when votes stay single ----------

  /** The last block validator `i` signed. */
  function LastVote(sigs: seq<Sig>, i: nat): Option<Block> {
    if sigs == [] then None
    else if sigs[|sigs| - 1].voter == i then Some(sigs[|sigs| - 1].block)
    else LastVote(sigs[..|sigs| - 1], i)
  }

  /** Where the last vote is, unless there is none. */
  lemma {:induction false} LastVoteAt(sigs: seq<Sig>, i: nat) returns (k: nat)
    ensures match LastVote(sigs, i)
      case None => forall q :: 0 <= q < |sigs| ==> sigs[q].voter != i
      case Some(b) => k < |sigs| && sigs[k] == Sig(i, b) && forall q :: k < q < |sigs| ==> sigs[q].voter != i
  {
    k := 0;
    if sigs != [] {
      if sigs[|sigs| - 1].voter == i {
        k := |sigs| - 1;
      } else {
        k := LastVoteAt(sigs[..|sigs| - 1], i);
      }
    }
  }

  /** A vote that repeats the voter's last vote or goes above it. */
  predicate Advances(sigs: seq<Sig>, i: nat, b: Block) {
    match LastVote(sigs, i)
    case None => true
    case Some(last) => last.Number() < b.Number() || last == b
  }

  /** A vote admitted by the height guard keeps the voter single-signed exactly when it
      repeats its last vote or goes above it. */
  lemma VoteStaysSingleIff(c: Config, sigs: seq<Sig>, i: nat, b: Block)
    requires c.Honest(i) && HeightsAscend(c, sigs + [Sig(i, b)]) && SingleSigned(c, sigs)
    ensures SingleSigned(c, sigs + [Sig(i, b)]) <==> Advances(sigs, i, b)
  {
    var all := sigs + [Sig(i, b)];
    assert forall k :: 0 <= k < |sigs| ==> all[k] == sigs[k];
    assert all[|sigs|] == Sig(i, b);
    var last := LastVote(sigs, i);
    var k := LastVoteAt(sigs, i);
    if last.Some? {
      assert SameHonest(c, all[k], all[|sigs|]);
      if Advances(sigs, i, b) {
        forall q | 0 <= q < |sigs| && sigs[q].voter == i && sigs[q].block.Number() == b.Number()
          ensures sigs[q].block == b
        {
          assert SameHonest(c, all[q], all[k]);
          assert q < k ==> all[q].block.Number() <= all[k].block.Number();
        }
        assert SingleSigned(c, all);
      }
    }
  }

  /** Every honest vote of the run passes the stricter check. */
  predicate AdvancingStep(c: Config, net: Net, ne: NetEvent) {
    ne.Deliver? && ne.to in net.replicas && NewSigs(ne.to, net.replicas[ne.to], ne.event) != [] ==>
      Advances(net.sigs, ne.to, ne.event.proposal.block)
  }

  ghost predicate AdvancingRun(c: Config, net: Net, run: seq<NetEvent>)
    decreases |run|
  {
    run == [] ||
    (Allowed(c, net, run[0]) && AdvancingStep(c, net, run[0]) && AdvancingRun(c, NetStep(net, run[0]), run[1..]))
  }

  lemma StepStaysSingle(c: Config, net: Net, ne: NetEvent)
    requires Ordered(c, net) && SingleSigned(c, net.sigs) && Allowed(c, net, ne) && AdvancingStep(c, net, ne)
    ensures SingleSigned(c, NetStep(net, ne).sigs)
  {
    StepKeepsOrder(c, net, ne);
    if ne.Deliver? {
      var added := NewSigs(ne.to, net.replicas[ne.to], ne.event);
      if added != [] {
        VoteStaysSingleIff(c, net.sigs, ne.to, ne.event.proposal.block);
      } else {
        assert net.sigs + added == net.sigs;
      }
    }
  }

  lemma {:induction false} RunStaysSingle(c: Config, net: Net, run: seq<NetEvent>, net': Net)
    requires Ordered(c, net) && SingleSigned(c, net.sigs) && NetRun(c, net, run, net') && AdvancingRun(c, net, run)
    ensures SingleSigned(c, net'.sigs)
    decreases |run|
  {
    if run != [] {
      StepKeepsOrder(c, net, run[0]);
      StepStaysSingle(c, net, run[0]);
      RunStaysSingle(c, NetStep(net, run[0]), run[1..], net');
    }
  }

  /** So when every honest vote repeats the voter's last vote or goes above it, at most one
      block per height is certified and all honest commits lie on one chain. */
  lemma AgreementIfVotesAdvance(c: Config, net: Net, run: seq<NetEvent>, net': Net, i: nat, j: nat, x: nat, y: nat)
    requires c.Valid() && Initial(c, net) && NetRun(c, net, run, net') && SoundRun(c, run)
    requires AdvancingRun(c, net, run)
    requires c.Honest(i) && i in net'.replicas && x < |net'.replicas[i].log|
    requires c.Honest(j) && j in net'.replicas && y < |net'.replicas[j].log|
    ensures var a := net'.replicas[i].log[x].draft.block;
      var b := net'.replicas[j].log[y].draft.block;
      Extends(b, a) || Extends(a, b)
  {
    assert Ordered(c, net);
    RunStaysSingle(c, net, run, net');
    Agreement(c, net, run, net', i, j, x, y);
  }
}
