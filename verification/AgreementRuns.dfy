/** Runs of three honest replicas, one of them beside an arbitrary fourth validator, that end in
    conflicting commits, one for each condition of agreement: leave out just that condition and
    agreement fails. */
module AgreementRuns {
  import opened Quorum
  import opened Blocks
  import opened Drafts
  import opened Pacemaker
  import opened CommitRuns
  import opened Network
  import opened CertificateMemory
  import S = Scenarios

  const c3: Config := Config(3, {})

  /** The fourth validator is arbitrary. */
  const c4: Config := Config(4, {3})

  /** Validators 0 to 2 are honest. */
  predicate Trio(c: Config) {
    c.Honest(0) && c.Honest(1) && c.Honest(2)
  }

  lemma Committees()
    ensures c3.Valid() && MajorityTwoThird(2, 3) && Trio(c3)
    ensures c4.Valid() && MajorityTwoThird(3, 4) && Trio(c4)
  {
    MajorityIsIntegral(2, 3);
    MajorityIsIntegral(3, 4);
  }

  // ---------- playing scenes ----------

  /** One replica handles one message; `sig` is what it signs. */
  datatype Scene = Scene(from: State, e: Event, to: State, sig: Option<Block>)

  predicate Fine(sc: Scene) {
    Step(sc.from, sc.e) == sc.to &&
    sc.sig == if sc.e.Propose? && VotesFor(sc.from, sc.e.proposal) then Some(sc.e.proposal.block) else None
  }

  /** Scenes that can be played; looked at only where one is played. */
  predicate Plays(x: seq<Scene>) {
    forall k {:trigger Fine(x[k])} :: 0 <= k < |x| ==> Fine(x[k])
  }

  predicate Proposes(sc: Scene, b: Block, qc: QC, votes: bool) {
    sc.e.Propose? && sc.e.proposal.block == b && sc.e.proposal.qc == qc &&
    sc.sig == if votes then Some(b) else None
  }

  /** The votes on `b` are collected into `qc`. */
  predicate Collects(sc: Scene, b: Block, qc: QC) {
    sc.e.Vote? && sc.e.vote.formed == Some(qc) && sc.e.vote.block == b && sc.e.vote.round == qc.round && sc.sig == None
  }

  function SigOf(i: nat, sc: Scene): seq<Sig> {
    if sc.sig.Some? then [Sig(i, sc.sig.value)] else []
  }

  /** The committee, and which of the conditions on certificates the run keeps to. */
  datatype Rules = Rules(c: Config, counted: bool, named: bool, truthful: bool)

  predicate Keeps(rules: Rules, ne: NetEvent) {
    ne.Deliver? ==>
      match ne.event
      case Propose(m) => (rules.counted ==> Counted(rules.c, m.qc)) && (rules.named ==> Named(m))
      case Vote(v) => rules.truthful && v.formed.Some? ==> Truthful(v.formed.value, v.block)
      case Timeout(t) => rules.truthful && t.formed.Some? ==> Truthful(t.formed.value, t.lastVote)
      case Beat(_, _) => true
      case RoundTimeout(_, _) => true
  }

  predicate KeepsAll(rules: Rules, run: seq<NetEvent>) {
    forall k :: 0 <= k < |run| ==> Keeps(rules, run[k])
  }

  ghost predicate Reaches(rules: Rules, start: Net, run: seq<NetEvent>, net: Net, known: Memory) {
    Trio(rules.c) && MemoryRun(rules.c, start, {}, run, net, known) && KeepsAll(rules, run)
  }

  /** Replica `i` plays scene `k`; nothing else moves, and what it knew it still knows. */
  lemma Play(rules: Rules, start: Net, run: seq<NetEvent>, net: Net, known: Memory, x: seq<Scene>, k: nat, i: nat)
      returns (run': seq<NetEvent>)
    requires Reaches(rules, start, run, net, known) && Plays(x) && k < |x|
    requires i in net.replicas && net.replicas[i] == x[k].from
    requires Permitted(rules.c, net, known, Deliver(i, x[k].e)) && Keeps(rules, Deliver(i, x[k].e))
    ensures Reaches(rules, start, run', Net(net.sigs + SigOf(i, x[k]), net.replicas[i := x[k].to]),
      Recall(rules.c, net, known, Deliver(i, x[k].e)))
  {
    var ne := Deliver(i, x[k].e);
    assert Fine(x[k]);
    MemoryRunSnoc(rules.c, start, {}, run, net, known, ne);
    run' := run + [ne];
  }

  lemma {:induction false} Forgetting(c: Config, net: Net, mem: Memory, run: seq<NetEvent>, net': Net, known: Memory, less: Memory)
    requires MemoryRun(c, net, mem, run, net', known) && less <= known
    ensures MemoryRun(c, net, mem, run, net', less)
    decreases |run|
  {
    if run != [] {
      Forgetting(c, NetStep(net, run[0]), Recall(c, net, mem, run[0]), run[1..], net', known, less);
    }
  }

  function Stage(sigs: seq<Sig>, rs: seq<State>): Net
    requires |rs| == 3
  {
    Net(sigs, map[0 := rs[0], 1 := rs[1], 2 := rs[2]])
  }

  /** Replica `i` accepts the certificate in `e`. */
  ghost predicate Accepted(c: Config, sigs: seq<Sig>, known: Memory, i: nat, e: Event) {
    match e
    case Propose(m) => (i, m.qc) in known || Checks(c, sigs, m)
    case Vote(v) => v.formed.Some? ==> Collected(c, sigs, v.formed.value, v.block, v.round)
    case Timeout(t) => t.formed.Some? ==> Collected(c, sigs, t.formed.value, t.lastVote, t.lastVoteRound)
    case Beat(_, _) => true
    case RoundTimeout(_, _) => true
  }

  /** It knows no more afterwards, or the certificate it just checked besides. */
  predicate Learns(c: Config, sigs: seq<Sig>, known: Memory, i: nat, sc: Scene, known': Memory) {
    known' <= known ||
    (sc.e.Propose? && known' == known + {(i, sc.e.proposal.qc)} &&
     Examined(sc.from, sc.e.proposal) && Checks(c, sigs, sc.e.proposal))
  }

  /** One scene on a stage of three. */
  lemma Act(rules: Rules, start: Net, run: seq<NetEvent>, sigs: seq<Sig>, rs: seq<State>, known: Memory,
            x: seq<Scene>, k: nat, i: nat, sigs': seq<Sig>, known': Memory) returns (run': seq<NetEvent>)
    requires |rs| == 3 && Reaches(rules, start, run, Stage(sigs, rs), known)
    requires Plays(x) && k < |x| && i < 3 && rs[i] == x[k].from && sigs' == sigs + SigOf(i, x[k])
    requires Accepted(rules.c, sigs, known, i, x[k].e) && Keeps(rules, Deliver(i, x[k].e))
    requires Learns(rules.c, sigs, known, i, x[k], known')
    ensures Reaches(rules, start, run', Stage(sigs', rs[i := x[k].to]), known')
  {
    var net, ne := Stage(sigs, rs), Deliver(i, x[k].e);
    assert rules.c.Honest(i) && i in net.replicas && net.replicas[i] == rs[i];
    run' := Play(rules, start, run, net, known, x, k, i);
    var after := Stage(sigs', rs[i := x[k].to]);
    assert after.replicas == net.replicas[i := x[k].to];
    Forgetting(rules.c, start, {}, run', after, Recall(rules.c, net, known, ne), known');
  }

  /** A certificate of two of the three for `b`. */
  predicate SignedBy(qc: QC, b: Block, i: nat, j: nat) {
    i < 3 && j < 3 && i != j && qc.hash == b && qc.voters == {i, j} && qc.height == b.Number()
  }

  lemma TwoSigned(sigs: seq<Sig>, qc: QC, b: Block, i: nat, j: nat)
    requires SignedBy(qc, b, i, j) && Sig(i, b) in sigs && Sig(j, b) in sigs
    ensures Collected(c3, sigs, qc, b, qc.round) && Counted(c3, qc) && VerifyQC(c3, sigs, b, qc)
  {
    Committees();
    assert qc.voters * Committee(3) == qc.voters && |qc.voters| == 2;
  }

  /** Replica `i` votes on the block of scene `k`, whose certificate verifies for its parent. */
  lemma Cast(rules: Rules, start: Net, run: seq<NetEvent>, sigs: seq<Sig>, rs: seq<State>, known: Memory,
             x: seq<Scene>, k: nat, i: nat, b: Block, qc: QC) returns (run': seq<NetEvent>)
    requires |rs| == 3 && Reaches(rules, start, run, Stage(sigs, rs), known)
    requires Plays(x) && k < |x| && i < 3 && rs[i] == x[k].from && Proposes(x[k], b, qc, true)
    requires (i, qc) in known || (b.Block? && VerifyQC(rules.c, sigs, b.parent, qc))
    requires Keeps(rules, Deliver(i, x[k].e))
    ensures Reaches(rules, start, run', Stage(sigs + [Sig(i, b)], rs[i := x[k].to]), known)
  {
    run' := Act(rules, start, run, sigs, rs, known, x, k, i, sigs + [Sig(i, b)], known);
  }

  /** Replicas 0 and 1, in the same state, both do. */
  lemma CastBoth(rules: Rules, start: Net, run: seq<NetEvent>, sigs: seq<Sig>, s: State, third: State, known: Memory,
                 x: seq<Scene>, k: nat, b: Block, qc: QC) returns (run': seq<NetEvent>)
    requires Reaches(rules, start, run, Stage(sigs, [s, s, third]), known)
    requires Plays(x) && k < |x| && s == x[k].from && Proposes(x[k], b, qc, true)
    requires b.Block? && VerifyQC(rules.c, sigs, b.parent, qc) && Keeps(rules, Deliver(0, x[k].e))
    ensures Reaches(rules, start, run', Stage(sigs + [Sig(0, b)] + [Sig(1, b)], [x[k].to, x[k].to, third]), known)
  {
    var t := x[k].to;
    run' := Cast(rules, start, run, sigs, [s, s, third], known, x, k, 0, b, qc);
    assert [s, s, third][0 := t] == [t, s, third];
    run' := Cast(rules, start, run', sigs + [Sig(0, b)], [t, s, third], known, x, k, 1, b, qc);
    assert [t, s, third][1 := t] == [t, t, third];
  }

  /** Replica `i` completes a certificate of two replicas for `b`. */
  lemma Gather(rules: Rules, start: Net, run: seq<NetEvent>, sigs: seq<Sig>, rs: seq<State>, known: Memory,
               x: seq<Scene>, k: nat, i: nat, b: Block, qc: QC, v: nat, w: nat) returns (run': seq<NetEvent>)
    requires |rs| == 3 && Reaches(rules, start, run, Stage(sigs, rs), known)
    requires Plays(x) && k < |x| && i < 3 && rs[i] == x[k].from && Collects(x[k], b, qc)
    requires rules.c == c3 && SignedBy(qc, b, v, w) && Sig(v, b) in sigs && Sig(w, b) in sigs
    ensures Reaches(rules, start, run', Stage(sigs, rs[i := x[k].to]), known)
  {
    TwoSigned(sigs, qc, b, v, w);
    assert sigs + [] == sigs;
    run' := Act(rules, start, run, sigs, rs, known, x, k, i, sigs, known);
  }

  // ---------- the first branch ----------

  /** Scenes 0 to 2: votes on `a` and its child `a2`, and the collection of the votes on `a2`. */
  predicate Opens(x: seq<Scene>, p: Block, a: Block, a2: Block, qp: QC, qa: QC, qa2: QC) {
    |x| >= 3 && x[1].from == x[0].to && x[2].from == x[1].to &&
    Proposes(x[0], a, qp, true) && Proposes(x[1], a2, qa, true) && Collects(x[2], a2, qa2) &&
    Examined(x[0].from, x[0].e.proposal) &&
    p.Number() == 1 && qp.height == 1 && a.Block? && a.parent == p && a2.Block? && a2.parent == a &&
    SignedBy(qa, a, 0, 1) && SignedBy(qa2, a2, 0, 1)
  }

  function OpeningSigs(a: Block, a2: Block): seq<Sig> {
    [] + [Sig(0, a)] + [Sig(1, a)] + [Sig(0, a2)] + [Sig(1, a2)]
  }

  lemma FirstVotes(rules: Rules, x: seq<Scene>, p: Block, a: Block, a2: Block, qp: QC, qa: QC, qa2: QC)
      returns (run: seq<NetEvent>)
    requires rules.c == c3
    requires Plays(x) && Opens(x, p, a, a2, qp, qa, qa2)
    ensures var s := x[0].from;
      Reaches(rules, Stage([], [s, s, s]), run, Stage([] + [Sig(0, a)] + [Sig(1, a)], [x[0].to, x[0].to, s]), {(1, qp)})
  {
    var s, t := x[0].from, x[0].to;
    var start := Stage([], [s, s, s]);
    Committees();
    assert Reaches(rules, start, [], start, {});
    run := Cast(rules, start, [], [], [s, s, s], {}, x, 0, 0, a, qp);
    assert [s, s, s][0 := t] == [t, s, s];
    run := Act(rules, start, run, [] + [Sig(0, a)], [t, s, s], {}, x, 0, 1, [] + [Sig(0, a)] + [Sig(1, a)], {(1, qp)});
    assert [t, s, s][1 := t] == [t, t, s];
  }

  lemma SecondVotes(rules: Rules, x: seq<Scene>, p: Block, a: Block, a2: Block, qp: QC, qa: QC, qa2: QC)
      returns (run: seq<NetEvent>)
    requires rules.c == c3
    requires Plays(x) && Opens(x, p, a, a2, qp, qa, qa2)
    ensures var s := x[0].from;
      Reaches(rules, Stage([], [s, s, s]), run, Stage(OpeningSigs(a, a2), [x[1].to, x[1].to, s]), {(1, qp)})
  {
    var s := x[0].from;
    run := FirstVotes(rules, x, p, a, a2, qp, qa, qa2);
    var sigs := [] + [Sig(0, a)] + [Sig(1, a)];
    TwoSigned(sigs, qa, a, 0, 1);
    run := CastBoth(rules, Stage([], [s, s, s]), run, sigs, x[0].to, s, {(1, qp)}, x, 1, a2, qa);
  }

  /** Replicas 0 and 1 vote on the first branch, and replica 0 collects. */
  lemma Opening(rules: Rules, x: seq<Scene>, p: Block, a: Block, a2: Block, qp: QC, qa: QC, qa2: QC)
      returns (run: seq<NetEvent>)
    requires rules.c == c3
    requires Plays(x) && Opens(x, p, a, a2, qp, qa, qa2)
    ensures var s := x[0].from;
      Reaches(rules, Stage([], [s, s, s]), run, Stage(OpeningSigs(a, a2), [x[2].to, x[1].to, s]), {(1, qp)})
  {
    var s, t, u := x[0].from, x[1].to, x[2].to;
    run := SecondVotes(rules, x, p, a, a2, qp, qa, qa2);
    run := Gather(rules, Stage([], [s, s, s]), run, OpeningSigs(a, a2), [t, t, s], {(1, qp)}, x, 2, 0, a2, qa2, 0, 1);
    assert [t, t, s][0 := u] == [u, t, s];
  }

  // ---------- what the ends have in common ----------

  /** When voter and height determine the block, no one signed two blocks at one height. */
  lemma SingleIfDetermined(c: Config, sigs: seq<Sig>, f: (nat, nat) -> Block)
    requires forall k :: 0 <= k < |sigs| ==> sigs[k].block == f(sigs[k].voter, sigs[k].block.Number())
    ensures SingleSigned(c, sigs)
  {
  }

  /** Replicas `i` and `j` have committed blocks on different branches. */
  predicate Conflict(net: Net, i: nat, j: nat) {
    i in net.replicas && j in net.replicas && net.replicas[i].log != [] && net.replicas[j].log != [] &&
    var a, b := net.replicas[i].log[0].draft.block, net.replicas[j].log[0].draft.block;
    !Extends(a, b) && !Extends(b, a)
  }

  predicate Apart(a: State, b: State) {
    a.log != [] && b.log != [] &&
    !Extends(a.log[0].draft.block, b.log[0].draft.block) && !Extends(b.log[0].draft.block, a.log[0].draft.block)
  }

  /** A run of the three honest replicas from a common start that keeps to `rules` and ends in
      conflicting commits. */
  ghost predicate EndsInConflict(rules: Rules, start: Net, run: seq<NetEvent>, net: Net) {
    rules.c.Valid() && Initial(rules.c, start) && MemoryRun(rules.c, start, {}, run, net, {}) &&
    NetRun(rules.c, start, run, net) && KeepsAll(rules, run) && Conflict(net, 0, 2)
  }

  lemma Ending(rules: Rules, run: seq<NetEvent>, sigs: seq<Sig>, s: State, r0: State, r1: State, r2: State, known: Memory)
    requires rules.c.Valid() && Reaches(rules, Stage([], [s, s, s]), run, Stage(sigs, [r0, r1, r2]), known)
    requires Coherent(s) && s.log == [] && Apart(r0, r2)
    ensures EndsInConflict(rules, Stage([], [s, s, s]), run, Stage(sigs, [r0, r1, r2]))
  {
    var start, net := Stage([], [s, s, s]), Stage(sigs, [r0, r1, r2]);
    Forgetting(rules.c, start, {}, run, net, known, {});
    MemoryRunIsNetRun(rules.c, start, {}, run, net, known);
  }

  // ---------- bits beyond the committee ----------

  predicate WideCert(qc: QC, b: Block) {
    qc.hash == b && qc.voters == {2, 3} && qc.height == b.Number() && b.Number() > 1
  }

  lemma WideVerifies(sigs: seq<Sig>, qc: QC, b: Block)
    requires WideCert(qc, b) && Sig(2, b) in sigs
    ensures VerifyQC(c3, sigs, b, qc)
  {
    Committees();
    assert |qc.voters| == 2;
  }

  /** Scenes 3 to 5: votes on `b`, `b2` and `b3`, the last two on certificates of one voter. */
  predicate Widens(x: seq<Scene>, p: Block, qp: QC, b: Block, b2: Block, b3: Block, wb: QC, wb2: QC) {
    |x| >= 6 && x[3].from == x[0].from && x[4].from == x[3].to && x[5].from == x[4].to &&
    Proposes(x[3], b, qp, true) && Proposes(x[4], b2, wb, true) && Proposes(x[5], b3, wb2, true) &&
    b.Block? && b.parent == p && b2.Block? && b2.parent == b && b3.Block? && b3.parent == b2 &&
    WideCert(wb, b) && WideCert(wb2, b2)
  }

  lemma WideRun(x: seq<Scene>, p: Block, a: Block, a2: Block, qp: QC, qa: QC, qa2: QC,
                b: Block, b2: Block, b3: Block, wb: QC, wb2: QC) returns (run: seq<NetEvent>, sigs: seq<Sig>)
    requires Plays(x) && Opens(x, p, a, a2, qp, qa, qa2) && Widens(x, p, qp, b, b2, b3, wb, wb2)
    ensures sigs == OpeningSigs(a, a2) + [Sig(2, b)] + [Sig(2, b2)] + [Sig(2, b3)]
    ensures var s := x[0].from;
      Reaches(Rules(c3, false, true, true), Stage([], [s, s, s]), run, Stage(sigs, [x[2].to, x[1].to, x[5].to]), {(1, qp)})
  {
    var rules, s, u, t := Rules(c3, false, true, true), x[0].from, x[2].to, x[1].to;
    var start := Stage([], [s, s, s]);
    run := Opening(rules, x, p, a, a2, qp, qa, qa2);
    sigs := OpeningSigs(a, a2);
    run := Cast(rules, start, run, sigs, [u, t, s], {(1, qp)}, x, 3, 2, b, qp);
    assert [u, t, s][2 := x[3].to] == [u, t, x[3].to];
    sigs := sigs + [Sig(2, b)];
    WideVerifies(sigs, wb, b);
    run := Cast(rules, start, run, sigs, [u, t, x[3].to], {(1, qp)}, x, 4, 2, b2, wb);
    assert [u, t, x[3].to][2 := x[4].to] == [u, t, x[4].to];
    sigs := sigs + [Sig(2, b2)];
    WideVerifies(sigs, wb2, b2);
    run := Cast(rules, start, run, sigs, [u, t, x[4].to], {(1, qp)}, x, 5, 2, b3, wb2);
    assert [u, t, x[4].to][2 := x[5].to] == [u, t, x[5].to];
    sigs := sigs + [Sig(2, b3)];
  }

  lemma WideSingle(p: Block, a: Block, a2: Block, b: Block, b2: Block, b3: Block)
    requires a.Block? && a.parent == p && a2.Block? && a2.parent == a
    requires b.Block? && b.parent == p && b2.Block? && b2.parent == b && b3.Block? && b3.parent == b2
    ensures SingleSigned(c3, OpeningSigs(a, a2) + [Sig(2, b)] + [Sig(2, b2)] + [Sig(2, b3)])
  {
    var h := a.Number();
    assert b.Number() == h && a2.Number() == b2.Number() == h + 1 && b3.Number() == h + 2;
    SingleIfDetermined(c3, OpeningSigs(a, a2) + [Sig(2, b)] + [Sig(2, b2)] + [Sig(2, b3)],
      (v: nat, n: nat) => if v == 2 then (if n == h then b else if n == h + 1 then b2 else b3) else (if n == h then a else a2));
  }

  // ---------- a remembered certificate for another parent ----------

  /** Scenes 3 to 5 and 8: a replica that voted on the first branch takes in `b`, proposes `b2`
      itself and votes on `b3`. Scenes 6, 7, 9 and 10: another one votes on `b`, `b2` and `b3`
      and collects. All of these proposals carry the certificate of `p`. */
  predicate Returns(x: seq<Scene>, p: Block, qp: QC, b: Block, b2: Block, b3: Block, qb3: QC) {
    |x| >= 11 && x[3].from == x[1].to && x[4].from == x[3].to && x[5].from == x[4].to && x[8].from == x[5].to &&
    x[6].from == x[0].from && x[7].from == x[6].to && x[9].from == x[7].to && x[10].from == x[9].to &&
    Proposes(x[3], b, qp, false) && x[4].e.Timeout? && x[4].e.timeout.formed.None? && x[4].sig.None? &&
    x[5].e.Beat? && x[5].sig.None? && Proposes(x[8], b3, qp, true) &&
    Proposes(x[6], b, qp, true) && Proposes(x[7], b2, qp, true) && Proposes(x[9], b3, qp, true) && Collects(x[10], b3, qb3) &&
    Examined(x[6].from, x[6].e.proposal) &&
    b.Block? && b.parent == p && b2.Block? && b2.parent == b && b3.Block? && b3.parent == b2 && SignedBy(qb3, b3, 1, 2)
  }

  /** Replica 1 changes branch. */
  lemma TurnRun(rules: Rules, x: seq<Scene>, p: Block, a: Block, a2: Block, qp: QC, qa: QC, qa2: QC,
                b: Block, b2: Block, b3: Block, qb3: QC) returns (run: seq<NetEvent>)
    requires rules == Rules(c3, true, false, true)
    requires Plays(x) && Opens(x, p, a, a2, qp, qa, qa2) && Returns(x, p, qp, b, b2, b3, qb3)
    ensures var s := x[0].from;
      Reaches(rules, Stage([], [s, s, s]), run, Stage(OpeningSigs(a, a2), [x[2].to, x[5].to, s]), {(1, qp)})
  {
    var s, u := x[0].from, x[2].to;
    var start, sigs, known := Stage([], [s, s, s]), OpeningSigs(a, a2), {(1, qp)};
    run := Opening(rules, x, p, a, a2, qp, qa, qa2);
    assert sigs + [] == sigs;
    run := Act(rules, start, run, sigs, [u, x[1].to, s], known, x, 3, 1, sigs, known);
    assert [u, x[1].to, s][1 := x[3].to] == [u, x[3].to, s];
    run := Act(rules, start, run, sigs, [u, x[3].to, s], known, x, 4, 1, sigs, known);
    assert [u, x[3].to, s][1 := x[4].to] == [u, x[4].to, s];
    run := Act(rules, start, run, sigs, [u, x[4].to, s], known, x, 5, 1, sigs, known);
    assert [u, x[4].to, s][1 := x[5].to] == [u, x[5].to, s];
  }

  /** Replica 2 goes along the second branch up to `b2`. */
  lemma SecondBranch(rules: Rules, x: seq<Scene>, p: Block, a: Block, a2: Block, qp: QC, qa: QC, qa2: QC,
                     b: Block, b2: Block, b3: Block, qb3: QC) returns (run: seq<NetEvent>)
    requires rules == Rules(c3, true, false, true)
    requires Plays(x) && Opens(x, p, a, a2, qp, qa, qa2) && Returns(x, p, qp, b, b2, b3, qb3)
    ensures var s := x[0].from;
      Reaches(rules, Stage([], [s, s, s]), run,
        Stage(OpeningSigs(a, a2) + [Sig(2, b)] + [Sig(2, b2)], [x[2].to, x[5].to, x[7].to]), {(1, qp), (2, qp)})
  {
    var s, u, v := x[0].from, x[2].to, x[5].to;
    var start, sigs, known := Stage([], [s, s, s]), OpeningSigs(a, a2), {(1, qp), (2, qp)};
    run := TurnRun(rules, x, p, a, a2, qp, qa, qa2, b, b2, b3, qb3);
    assert {(1, qp)} + {(2, qp)} == known;
    run := Act(rules, start, run, sigs, [u, v, s], {(1, qp)}, x, 6, 2, sigs + [Sig(2, b)], known);
    assert [u, v, s][2 := x[6].to] == [u, v, x[6].to];
    run := Cast(rules, start, run, sigs + [Sig(2, b)], [u, v, x[6].to], known, x, 7, 2, b2, qp);
    assert [u, v, x[6].to][2 := x[7].to] == [u, v, x[7].to];
  }

  function ReturnSigs(a: Block, a2: Block, b: Block, b2: Block, b3: Block): seq<Sig> {
    OpeningSigs(a, a2) + [Sig(2, b)] + [Sig(2, b2)] + [Sig(1, b3)] + [Sig(2, b3)]
  }

  /** Replicas 1 and 2 vote on `b3`. */
  lemma ReturnVotes(x: seq<Scene>, p: Block, a: Block, a2: Block, qp: QC, qa: QC, qa2: QC,
                    b: Block, b2: Block, b3: Block, qb3: QC) returns (run: seq<NetEvent>)
    requires Plays(x) && Opens(x, p, a, a2, qp, qa, qa2) && Returns(x, p, qp, b, b2, b3, qb3)
    ensures var s := x[0].from;
      Reaches(Rules(c3, true, false, true), Stage([], [s, s, s]), run,
        Stage(ReturnSigs(a, a2, b, b2, b3), [x[2].to, x[8].to, x[9].to]), {(1, qp), (2, qp)})
  {
    var rules, s, u := Rules(c3, true, false, true), x[0].from, x[2].to;
    var start, known := Stage([], [s, s, s]), {(1, qp), (2, qp)};
    run := SecondBranch(rules, x, p, a, a2, qp, qa, qa2, b, b2, b3, qb3);
    var sigs := OpeningSigs(a, a2) + [Sig(2, b)] + [Sig(2, b2)];
    run := Cast(rules, start, run, sigs, [u, x[5].to, x[7].to], known, x, 8, 1, b3, qp);
    assert [u, x[5].to, x[7].to][1 := x[8].to] == [u, x[8].to, x[7].to];
    run := Cast(rules, start, run, sigs + [Sig(1, b3)], [u, x[8].to, x[7].to], known, x, 9, 2, b3, qp);
    assert [u, x[8].to, x[7].to][2 := x[9].to] == [u, x[8].to, x[9].to];
  }

  /** And replica 2 collects. */
  lemma ReturnRun(x: seq<Scene>, p: Block, a: Block, a2: Block, qp: QC, qa: QC, qa2: QC,
                  b: Block, b2: Block, b3: Block, qb3: QC) returns (run: seq<NetEvent>)
    requires Plays(x) && Opens(x, p, a, a2, qp, qa, qa2) && Returns(x, p, qp, b, b2, b3, qb3)
    ensures var s := x[0].from;
      Reaches(Rules(c3, true, false, true), Stage([], [s, s, s]), run,
        Stage(ReturnSigs(a, a2, b, b2, b3), [x[2].to, x[8].to, x[10].to]), {(1, qp), (2, qp)})
  {
    var s, u, t := x[0].from, x[2].to, x[8].to;
    run := ReturnVotes(x, p, a, a2, qp, qa, qa2, b, b2, b3, qb3);
    run := Gather(Rules(c3, true, false, true), Stage([], [s, s, s]), run, ReturnSigs(a, a2, b, b2, b3), [u, t, x[9].to],
                  {(1, qp), (2, qp)}, x, 10, 2, b3, qb3, 1, 2);
    assert [u, t, x[9].to][2 := x[10].to] == [u, t, x[10].to];
  }

  lemma ReturnSingle(p: Block, a: Block, a2: Block, b: Block, b2: Block, b3: Block)
    requires a.Block? && a.parent == p && a2.Block? && a2.parent == a
    requires b.Block? && b.parent == p && b2.Block? && b2.parent == b && b3.Block? && b3.parent == b2
    ensures SingleSigned(c3, ReturnSigs(a, a2, b, b2, b3))
  {
    var h := a.Number();
    assert b.Number() == h && a2.Number() == b2.Number() == h + 1 && b3.Number() == h + 2;
    SingleIfDetermined(c3, ReturnSigs(a, a2, b, b2, b3),
      (v: nat, n: nat) => if n == h + 2 then b3 else if n == h then (if v == 2 then b else a) else (if v == 2 then b2 else a2));
  }

  // ---------- two votes at one height ----------

  /** Scenes 3 to 6: after voting on `a`, votes on `b`, `a2` and `b2`, and the collection of the
      votes on `b2`. */
  predicate Doubles(x: seq<Scene>, p: Block, a2: Block, qp: QC, qa: QC, b: Block, b2: Block, qb: QC, qb2: QC) {
    |x| >= 7 && x[3].from == x[0].to && x[4].from == x[3].to && x[5].from == x[4].to && x[6].from == x[5].to &&
    Proposes(x[3], b, qp, true) && Proposes(x[4], a2, qa, true) && Proposes(x[5], b2, qb, true) && Collects(x[6], b2, qb2) &&
    b.Block? && b.parent == p && b2.Block? && b2.parent == b && SignedBy(qb, b, 0, 1) && SignedBy(qb2, b2, 0, 1)
  }

  function DoubleSigs(a: Block, a2: Block, b: Block, b2: Block): seq<Sig> {
    [] + [Sig(0, a)] + [Sig(1, a)] + [Sig(0, b)] + [Sig(1, b)] + [Sig(0, a2)] + [Sig(1, a2)] + [Sig(0, b2)] + [Sig(1, b2)]
  }

  /** Replicas 0 and 1 vote on both branches. */
  lemma DoubleVotes(x: seq<Scene>, p: Block, a: Block, a2: Block, qp: QC, qa: QC, qa2: QC,
                    b: Block, b2: Block, qb: QC, qb2: QC) returns (run: seq<NetEvent>)
    requires Plays(x) && Opens(x, p, a, a2, qp, qa, qa2) && Doubles(x, p, a2, qp, qa, b, b2, qb, qb2)
    ensures var s := x[0].from;
      Reaches(Rules(c3, true, true, true), Stage([], [s, s, s]), run,
        Stage(DoubleSigs(a, a2, b, b2), [x[5].to, x[5].to, s]), {(1, qp)})
  {
    var rules, s, known := Rules(c3, true, true, true), x[0].from, {(1, qp)};
    var start := Stage([], [s, s, s]);
    run := FirstVotes(rules, x, p, a, a2, qp, qa, qa2);
    var sigs := [] + [Sig(0, a)] + [Sig(1, a)];
    run := CastBoth(rules, start, run, sigs, x[0].to, s, known, x, 3, b, qp);
    sigs := sigs + [Sig(0, b)] + [Sig(1, b)];
    TwoSigned(sigs, qa, a, 0, 1);
    run := CastBoth(rules, start, run, sigs, x[3].to, s, known, x, 4, a2, qa);
    sigs := sigs + [Sig(0, a2)] + [Sig(1, a2)];
    TwoSigned(sigs, qb, b, 0, 1);
    run := CastBoth(rules, start, run, sigs, x[4].to, s, known, x, 5, b2, qb);
  }

  /** Replica 2 sees the first branch. */
  lemma ThirdVote(x: seq<Scene>, p: Block, a: Block, a2: Block, qp: QC, qa: QC, qa2: QC,
                  b: Block, b2: Block, qb: QC, qb2: QC) returns (run: seq<NetEvent>)
    requires Plays(x) && Opens(x, p, a, a2, qp, qa, qa2) && Doubles(x, p, a2, qp, qa, b, b2, qb, qb2)
    ensures var s := x[0].from;
      Reaches(Rules(c3, true, true, true), Stage([], [s, s, s]), run,
        Stage(DoubleSigs(a, a2, b, b2) + [Sig(2, a)], [x[5].to, x[5].to, x[0].to]), {(1, qp)})
  {
    var s, t := x[0].from, x[5].to;
    run := DoubleVotes(x, p, a, a2, qp, qa, qa2, b, b2, qb, qb2);
    run := Cast(Rules(c3, true, true, true), Stage([], [s, s, s]), run,
                DoubleSigs(a, a2, b, b2), [t, t, s], {(1, qp)}, x, 0, 2, a, qp);
    assert [t, t, s][2 := x[0].to] == [t, t, x[0].to];
  }

  lemma ThirdVotes(x: seq<Scene>, p: Block, a: Block, a2: Block, qp: QC, qa: QC, qa2: QC,
                   b: Block, b2: Block, qb: QC, qb2: QC) returns (run: seq<NetEvent>)
    requires Plays(x) && Opens(x, p, a, a2, qp, qa, qa2) && Doubles(x, p, a2, qp, qa, b, b2, qb, qb2)
    ensures var s := x[0].from;
      Reaches(Rules(c3, true, true, true), Stage([], [s, s, s]), run,
        Stage(DoubleSigs(a, a2, b, b2) + [Sig(2, a)] + [Sig(2, a2)], [x[5].to, x[5].to, x[1].to]), {(1, qp)})
  {
    var s, t := x[0].from, x[5].to;
    var sigs := DoubleSigs(a, a2, b, b2) + [Sig(2, a)];
    run := ThirdVote(x, p, a, a2, qp, qa, qa2, b, b2, qb, qb2);
    TwoSigned(sigs, qa, a, 0, 1);
    run := Cast(Rules(c3, true, true, true), Stage([], [s, s, s]), run, sigs, [t, t, x[0].to], {(1, qp)}, x, 1, 2, a2, qa);
    assert [t, t, x[0].to][2 := x[1].to] == [t, t, x[1].to];
  }

  function DoubleSigsAll(a: Block, a2: Block, b: Block, b2: Block): seq<Sig> {
    DoubleSigs(a, a2, b, b2) + [Sig(2, a)] + [Sig(2, a2)]
  }

  /** Replica 2 collects on the first branch. */
  lemma ThirdCollects(x: seq<Scene>, p: Block, a: Block, a2: Block, qp: QC, qa: QC, qa2: QC,
                      b: Block, b2: Block, qb: QC, qb2: QC) returns (run: seq<NetEvent>)
    requires Plays(x) && Opens(x, p, a, a2, qp, qa, qa2) && Doubles(x, p, a2, qp, qa, b, b2, qb, qb2)
    ensures var s := x[0].from;
      Reaches(Rules(c3, true, true, true), Stage([], [s, s, s]), run,
        Stage(DoubleSigsAll(a, a2, b, b2), [x[5].to, x[5].to, x[2].to]), {(1, qp)})
  {
    var s, t := x[0].from, x[5].to;
    run := ThirdVotes(x, p, a, a2, qp, qa, qa2, b, b2, qb, qb2);
    run := Gather(Rules(c3, true, true, true), Stage([], [s, s, s]), run, DoubleSigsAll(a, a2, b, b2), [t, t, x[1].to],
                  {(1, qp)}, x, 2, 2, a2, qa2, 0, 1);
    assert [t, t, x[1].to][2 := x[2].to] == [t, t, x[2].to];
  }

  /** Replica 0 collects on the second. */
  lemma DoubleRun(x: seq<Scene>, p: Block, a: Block, a2: Block, qp: QC, qa: QC, qa2: QC,
                  b: Block, b2: Block, qb: QC, qb2: QC) returns (run: seq<NetEvent>, sigs: seq<Sig>)
    requires Plays(x) && Opens(x, p, a, a2, qp, qa, qa2) && Doubles(x, p, a2, qp, qa, b, b2, qb, qb2)
    ensures var s := x[0].from;
      Reaches(Rules(c3, true, true, true), Stage([], [s, s, s]), run, Stage(sigs, [x[6].to, x[5].to, x[2].to]), {(1, qp)})
  {
    var s, t := x[0].from, x[5].to;
    sigs := DoubleSigsAll(a, a2, b, b2);
    run := ThirdCollects(x, p, a, a2, qp, qa, qa2, b, b2, qb, qb2);
    run := Gather(Rules(c3, true, true, true), Stage([], [s, s, s]), run, sigs, [t, t, x[2].to], {(1, qp)},
                  x, 6, 0, b2, qb2, 0, 1);
    assert [t, t, x[2].to][0 := x[6].to] == [x[6].to, t, x[2].to];
  }

  // ---------- votes on one block with the hash of another ----------

  /** A certificate of the three honest validators for `b`. */
  predicate SignedByAll(qc: QC, b: Block) {
    qc.hash == b && qc.voters == {0, 1, 2} && qc.height == b.Number()
  }

  predicate AllSigned(sigs: seq<Sig>, b: Block) {
    Sig(0, b) in sigs && Sig(1, b) in sigs && Sig(2, b) in sigs
  }

  lemma ThreeSigned(sigs: seq<Sig>, qc: QC, b: Block)
    requires SignedByAll(qc, b) && AllSigned(sigs, b)
    ensures Collected(c4, sigs, qc, b, qc.round) && Counted(c4, qc) && VerifyQC(c4, sigs, b, qc)
  {
    Committees();
    assert qc.voters * Committee(4) == qc.voters && |qc.voters| == 3;
  }

  /** A certificate of votes on `a2` by validators 0 and 1 and the arbitrary one, with the hash of
      another block of that height. */
  predicate Mixed(qc: QC, a2: Block, b2: Block) {
    qc.hash == b2 && qc.voters == {0, 1, 3} && qc.height == a2.Number()
  }

  lemma MixedIsCollected(sigs: seq<Sig>, qc: QC, a2: Block, b2: Block)
    requires Mixed(qc, a2, b2) && AllSigned(sigs, a2)
    ensures Collected(c4, sigs, qc, a2, qc.round)
  {
    Committees();
    assert |qc.voters| == 3 && 3 in qc.voters && !c4.Honest(3);
  }

  /** Scenes 0 to 2: votes on `a` and its child `a2`, and the collection of the votes on `a2`.
      Scenes 3 to 6: a replica that voted on them takes in `b`, proposes `b2` itself and collects
      the votes on `a2` into a certificate with the hash of `b2`. */
  predicate Mixes(x: seq<Scene>, p: Block, a: Block, a2: Block, qp: QC, qa: QC, qa2: QC, b: Block, b2: Block, qm: QC) {
    |x| >= 7 && x[1].from == x[0].to && x[2].from == x[1].to && x[3].from == x[1].to && x[4].from == x[3].to &&
    x[5].from == x[4].to && x[6].from == x[5].to &&
    Proposes(x[0], a, qp, true) && Proposes(x[1], a2, qa, true) && Collects(x[2], a2, qa2) &&
    Proposes(x[3], b, qp, false) && x[4].e.Timeout? && x[4].e.timeout.formed.None? && x[4].sig.None? &&
    x[5].e.Beat? && x[5].sig.None? && x[6].sig.None? && CollectsLate(x[6], a2, qm) &&
    p.Number() == 1 && qp.height == 1 && a.Block? && a.parent == p && a2.Block? && a2.parent == a &&
    b.Block? && b.parent == p && SignedByAll(qa, a) && SignedByAll(qa2, a2) && Mixed(qm, a2, b2)
  }

  /** The votes on `b` in timeout messages are collected into `qc`. */
  predicate CollectsLate(sc: Scene, b: Block, qc: QC) {
    sc.e.Timeout? && sc.e.timeout.formed == Some(qc) && sc.e.timeout.lastVote == b &&
    sc.e.timeout.lastVoteRound == qc.round
  }

  const mixedRules: Rules := Rules(c4, true, true, false)

  function AfterAll(sigs: seq<Sig>, b: Block): seq<Sig> {
    sigs + [Sig(0, b)] + [Sig(1, b)] + [Sig(2, b)]
  }

  /** All three vote. */
  lemma CastAll(start: Net, run: seq<NetEvent>, sigs: seq<Sig>, s: State, x: seq<Scene>, k: nat, b: Block, qc: QC)
      returns (run': seq<NetEvent>)
    requires Reaches(mixedRules, start, run, Stage(sigs, [s, s, s]), {})
    requires Plays(x) && k < |x| && s == x[k].from && Proposes(x[k], b, qc, true)
    requires b.Block? && VerifyQC(c4, sigs, b.parent, qc) && Keeps(mixedRules, Deliver(0, x[k].e))
    ensures Reaches(mixedRules, start, run', Stage(AfterAll(sigs, b), [x[k].to, x[k].to, x[k].to]), {})
  {
    var t := x[k].to;
    run' := CastBoth(mixedRules, start, run, sigs, s, s, {}, x, k, b, qc);
    run' := Cast(mixedRules, start, run', sigs + [Sig(0, b)] + [Sig(1, b)], [t, t, s], {}, x, k, 2, b, qc);
    assert [t, t, s][2 := t] == [t, t, t];
  }

  /** Replica 0 completes a certificate of all three for `b`. */
  lemma GatherAll(start: Net, run: seq<NetEvent>, sigs: seq<Sig>, t: State, x: seq<Scene>, k: nat, b: Block, qc: QC)
      returns (run': seq<NetEvent>)
    requires Reaches(mixedRules, start, run, Stage(sigs, [t, t, t]), {})
    requires Plays(x) && k < |x| && t == x[k].from && Collects(x[k], b, qc) && SignedByAll(qc, b) && AllSigned(sigs, b)
    ensures Reaches(mixedRules, start, run', Stage(sigs, [t, t, t][0 := x[k].to]), {})
  {
    ThreeSigned(sigs, qc, b);
    assert sigs + [] == sigs;
    run' := Act(mixedRules, start, run, sigs, [t, t, t], {}, x, k, 0, sigs, {});
  }

  function MixedSigs(a: Block, a2: Block): seq<Sig> {
    AfterAll(AfterAll([], a), a2)
  }

  /** All vote on the first branch. */
  lemma FullVotes(x: seq<Scene>, p: Block, a: Block, a2: Block, qp: QC, qa: QC, qa2: QC, b: Block, b2: Block, qm: QC)
      returns (run: seq<NetEvent>)
    requires Plays(x) && Mixes(x, p, a, a2, qp, qa, qa2, b, b2, qm)
    ensures var s := x[0].from;
      Reaches(mixedRules, Stage([], [s, s, s]), run, Stage(MixedSigs(a, a2), [x[1].to, x[1].to, x[1].to]), {})
  {
    var s := x[0].from;
    var start := Stage([], [s, s, s]);
    Committees();
    assert Reaches(mixedRules, start, [], start, {});
    run := CastAll(start, [], [], s, x, 0, a, qp);
    ThreeSigned(AfterAll([], a), qa, a);
    run := CastAll(start, run, AfterAll([], a), x[0].to, x, 1, a2, qa);
  }

  /** And replica 0 collects. */
  lemma FullOpening(x: seq<Scene>, p: Block, a: Block, a2: Block, qp: QC, qa: QC, qa2: QC, b: Block, b2: Block, qm: QC)
      returns (run: seq<NetEvent>)
    requires Plays(x) && Mixes(x, p, a, a2, qp, qa, qa2, b, b2, qm)
    ensures var s := x[0].from;
      Reaches(mixedRules, Stage([], [s, s, s]), run, Stage(MixedSigs(a, a2), [x[2].to, x[1].to, x[1].to]), {})
  {
    var s, t, u, sigs := x[0].from, x[1].to, x[2].to, MixedSigs(a, a2);
    run := FullVotes(x, p, a, a2, qp, qa, qa2, b, b2, qm);
    run := GatherAll(Stage([], [s, s, s]), run, sigs, t, x, 2, a2, qa2);
    assert [t, t, t][0 := u] == [u, t, t];
  }

  /** Replica 2 turns to the second branch. */
  lemma MixedTurn(x: seq<Scene>, p: Block, a: Block, a2: Block, qp: QC, qa: QC, qa2: QC, b: Block, b2: Block, qm: QC)
      returns (run: seq<NetEvent>)
    requires Plays(x) && Mixes(x, p, a, a2, qp, qa, qa2, b, b2, qm)
    ensures var s := x[0].from;
      Reaches(mixedRules, Stage([], [s, s, s]), run, Stage(MixedSigs(a, a2), [x[2].to, x[1].to, x[5].to]), {})
  {
    var s, t, u, sigs := x[0].from, x[1].to, x[2].to, MixedSigs(a, a2);
    var start := Stage([], [s, s, s]);
    run := FullOpening(x, p, a, a2, qp, qa, qa2, b, b2, qm);
    assert sigs + [] == sigs;
    run := Act(mixedRules, start, run, sigs, [u, t, t], {}, x, 3, 2, sigs, {});
    assert [u, t, t][2 := x[3].to] == [u, t, x[3].to];
    run := Act(mixedRules, start, run, sigs, [u, t, x[3].to], {}, x, 4, 2, sigs, {});
    assert [u, t, x[3].to][2 := x[4].to] == [u, t, x[4].to];
    run := Act(mixedRules, start, run, sigs, [u, t, x[4].to], {}, x, 5, 2, sigs, {});
    assert [u, t, x[4].to][2 := x[5].to] == [u, t, x[5].to];
  }

  lemma MixedRun(x: seq<Scene>, p: Block, a: Block, a2: Block, qp: QC, qa: QC, qa2: QC, b: Block, b2: Block, qm: QC)
      returns (run: seq<NetEvent>)
    requires Plays(x) && Mixes(x, p, a, a2, qp, qa, qa2, b, b2, qm)
    ensures var s := x[0].from;
      Reaches(mixedRules, Stage([], [s, s, s]), run, Stage(MixedSigs(a, a2), [x[2].to, x[1].to, x[6].to]), {})
  {
    var s, t, u, sigs := x[0].from, x[1].to, x[2].to, MixedSigs(a, a2);
    run := MixedTurn(x, p, a, a2, qp, qa, qa2, b, b2, qm);
    MixedIsCollected(sigs, qm, a2, b2);
    assert sigs + [] == sigs;
    run := Act(mixedRules, Stage([], [s, s, s]), run, sigs, [u, t, x[5].to], {}, x, 6, 2, sigs, {});
    assert [u, t, x[5].to][2 := x[6].to] == [u, t, x[6].to];
  }

  lemma MixedSingle(a: Block, a2: Block)
    requires a2.Block? && a2.parent == a
    ensures SingleSigned(c4, MixedSigs(a, a2))
  {
    SingleIfDetermined(c4, MixedSigs(a, a2), (v: nat, n: nat) => if n == a.Number() then a else a2);
  }

  // ---------- the scenes exist ----------

  lemma WithScene(x: seq<Scene>, sc: Scene)
    requires Plays(x) && Fine(sc)
    ensures Plays(x + [sc])
  {
    forall k | 0 <= k < |x| + 1
      ensures Fine((x + [sc])[k])
    {
      assert k < |x| ==> Fine(x[k]);
    }
  }

  lemma SceneA(x: seq<Scene>)
    requires Plays(x)
    ensures Plays(x + [Scene(S.s0, Propose(S.mA), S.s1, Some(S.A))])
  {
    S.VotesA();
    WithScene(x, Scene(S.s0, Propose(S.mA), S.s1, Some(S.A)));
  }

  lemma SceneA2(x: seq<Scene>)
    requires Plays(x)
    ensures Plays(x + [Scene(S.s1, Propose(S.mA2), S.t2, Some(S.A2))])
  {
    S.VotesA2Alone();
    WithScene(x, Scene(S.s1, Propose(S.mA2), S.t2, Some(S.A2)));
  }

  lemma SceneCommitA(x: seq<Scene>) returns (u: State)
    requires Plays(x)
    ensures Plays(x + [Scene(S.t2, Vote(S.vA2), u, None)]) && u.log == [Commit(S.dA, S.qcA)]
  {
    u := Step(S.t2, Vote(S.vA2));
    S.CommitsA();
    WithScene(x, Scene(S.t2, Vote(S.vA2), u, None));
  }

  lemma FirstScenes() returns (x: seq<Scene>)
    ensures Plays(x) && Opens(x, S.P, S.A, S.A2, S.qcP, S.qcA, S.qcA2)
    ensures |x| == 3 && x[0].from == S.s0 && x[0].to == S.s1 && x[1].to == S.t2 && x[2].to.log == [Commit(S.dA, S.qcA)]
  {
    x := [];
    SceneA(x);
    x := x + [Scene(S.s0, Propose(S.mA), S.s1, Some(S.A))];
    SceneA2(x);
    x := x + [Scene(S.s1, Propose(S.mA2), S.t2, Some(S.A2))];
    var u := SceneCommitA(x);
    x := x + [Scene(S.t2, Vote(S.vA2), u, None)];
    S.Numbers();
  }

  lemma SceneB(x: seq<Scene>)
    requires Plays(x)
    ensures Plays(x + [Scene(S.s0, Propose(S.mB), S.r1, Some(S.B))])
  {
    S.VotesBAlone();
    WithScene(x, Scene(S.s0, Propose(S.mB), S.r1, Some(S.B)));
  }

  lemma SceneB2Wide(x: seq<Scene>)
    requires Plays(x)
    ensures Plays(x + [Scene(S.r1, Propose(S.mB2w), S.r2, Some(S.B2))])
  {
    S.VotesB2Wide();
    WithScene(x, Scene(S.r1, Propose(S.mB2w), S.r2, Some(S.B2)));
  }

  lemma SceneCommitWide(x: seq<Scene>) returns (u: State)
    requires Plays(x)
    ensures Plays(x + [Scene(S.r2, Propose(S.mB3w), u, Some(S.B3))]) && u.log == [Commit(S.dBr, S.wideB)]
  {
    u := Step(S.r2, Propose(S.mB3w));
    S.CommitsBWide();
    WithScene(x, Scene(S.r2, Propose(S.mB3w), u, Some(S.B3)));
  }

  lemma Siblings(a: Commit, b: Commit)
    requires a.draft.block == S.A && b.draft.block == S.B
    ensures !Extends(a.draft.block, b.draft.block) && !Extends(b.draft.block, a.draft.block)
  {
    S.Numbers();
    if Extends(S.A, S.B) { ExtendsGrows(S.A, S.B); }
    if Extends(S.B, S.A) { ExtendsGrows(S.B, S.A); }
  }

  lemma WideScenes() returns (x: seq<Scene>)
    ensures Plays(x) && Opens(x, S.P, S.A, S.A2, S.qcP, S.qcA, S.qcA2)
    ensures Widens(x, S.P, S.qcP, S.B, S.B2, S.B3, S.wideB, S.wideB2)
    ensures Coherent(x[0].from) && x[0].from.log == [] && Apart(x[2].to, x[5].to)
  {
    x := FirstScenes();
    SceneB(x);
    x := x + [Scene(S.s0, Propose(S.mB), S.r1, Some(S.B))];
    SceneB2Wide(x);
    x := x + [Scene(S.r1, Propose(S.mB2w), S.r2, Some(S.B2))];
    var u := SceneCommitWide(x);
    x := x + [Scene(S.r2, Propose(S.mB3w), u, Some(S.B3))];
    S.Numbers();
    Siblings(x[2].to.log[0], u.log[0]);
  }

  /** Nobody signs two blocks at one height and every certificate names its proposal's parent, but
      some carry a bit beyond the committee: honest replicas commit conflicting blocks. */
  lemma WideBitsConflict() returns (start: Net, run: seq<NetEvent>, net: Net)
    ensures EndsInConflict(Rules(c3, false, true, true), start, run, net) && SingleSigned(c3, net.sigs)
  {
    var x := WideScenes();
    var sigs;
    run, sigs := WideRun(x, S.P, S.A, S.A2, S.qcP, S.qcA, S.qcA2, S.B, S.B2, S.B3, S.wideB, S.wideB2);
    WideSingle(S.P, S.A, S.A2, S.B, S.B2, S.B3);
    start, net := Stage([], [x[0].from, x[0].from, x[0].from]), Stage(sigs, [x[2].to, x[1].to, x[5].to]);
    Committees();
    Ending(Rules(c3, false, true, true), run, sigs, x[0].from, x[2].to, x[1].to, x[5].to, {(1, S.qcP)});
  }

  lemma SceneAddsB(x: seq<Scene>)
    requires Plays(x)
    ensures Plays(x + [Scene(S.t2, Propose(S.mB), S.m1, None)])
  {
    S.AddsB();
    WithScene(x, Scene(S.t2, Propose(S.mB), S.m1, None));
  }

  lemma SceneRaisesB(x: seq<Scene>)
    requires Plays(x)
    ensures Plays(x + [Scene(S.m1, Timeout(S.toB), S.m2, None)])
  {
    S.RaisesB();
    WithScene(x, Scene(S.m1, Timeout(S.toB), S.m2, None));
  }

  lemma SceneBuildsB2(x: seq<Scene>)
    requires Plays(x)
    ensures Plays(x + [Scene(S.m2, Beat(0, S.beat), S.m3, None)])
  {
    S.BuildsB2();
    WithScene(x, Scene(S.m2, Beat(0, S.beat), S.m3, None));
  }

  lemma SceneB2Again(x: seq<Scene>)
    requires Plays(x)
    ensures Plays(x + [Scene(S.r1, Propose(S.mB2p), S.q2, Some(S.B2))])
  {
    S.VotesB2Again();
    WithScene(x, Scene(S.r1, Propose(S.mB2p), S.q2, Some(S.B2)));
  }

  lemma SceneB3(x: seq<Scene>)
    requires Plays(x)
    ensures Plays(x + [Scene(S.m3, Propose(S.mB3p), S.m4, Some(S.B3))])
  {
    S.VotesB3();
    WithScene(x, Scene(S.m3, Propose(S.mB3p), S.m4, Some(S.B3)));
  }

  lemma SceneB3Again(x: seq<Scene>)
    requires Plays(x)
    ensures Plays(x + [Scene(S.q2, Propose(S.mB3p), S.q3, Some(S.B3))])
  {
    S.VotesB3Again();
    WithScene(x, Scene(S.q2, Propose(S.mB3p), S.q3, Some(S.B3)));
  }

  lemma SceneCommitB2(x: seq<Scene>) returns (u: State)
    requires Plays(x)
    ensures Plays(x + [Scene(S.q3, Vote(S.vB3), u, None)]) && u.log == [Commit(S.dBr, S.qcP), Commit(S.dB2p, S.qcP)]
  {
    u := Step(S.q3, Vote(S.vB3));
    S.CommitsB2();
    WithScene(x, Scene(S.q3, Vote(S.vB3), u, None));
  }

  lemma TurnScenes() returns (x: seq<Scene>)
    ensures Plays(x) && Opens(x, S.P, S.A, S.A2, S.qcP, S.qcA, S.qcA2)
    ensures |x| == 6 && x[0].from == S.s0 && x[2].to.log == [Commit(S.dA, S.qcA)]
    ensures x[1].to == S.t2 && x[3] == Scene(S.t2, Propose(S.mB), S.m1, None)
    ensures x[4] == Scene(S.m1, Timeout(S.toB), S.m2, None) && x[5] == Scene(S.m2, Beat(0, S.beat), S.m3, None)
  {
    x := FirstScenes();
    SceneAddsB(x);
    x := x + [Scene(S.t2, Propose(S.mB), S.m1, None)];
    SceneRaisesB(x);
    x := x + [Scene(S.m1, Timeout(S.toB), S.m2, None)];
    SceneBuildsB2(x);
    x := x + [Scene(S.m2, Beat(0, S.beat), S.m3, None)];
  }

  lemma BranchScenes() returns (x: seq<Scene>)
    ensures Plays(x) && Opens(x, S.P, S.A, S.A2, S.qcP, S.qcA, S.qcA2)
    ensures |x| == 9 && x[0].from == S.s0 && x[2].to.log == [Commit(S.dA, S.qcA)]
    ensures x[1].to == S.t2 && x[3] == Scene(S.t2, Propose(S.mB), S.m1, None)
    ensures x[4] == Scene(S.m1, Timeout(S.toB), S.m2, None) && x[5] == Scene(S.m2, Beat(0, S.beat), S.m3, None)
    ensures x[6] == Scene(S.s0, Propose(S.mB), S.r1, Some(S.B)) && x[7] == Scene(S.r1, Propose(S.mB2p), S.q2, Some(S.B2))
    ensures x[8] == Scene(S.m3, Propose(S.mB3p), S.m4, Some(S.B3))
  {
    x := TurnScenes();
    SceneB(x);
    x := x + [Scene(S.s0, Propose(S.mB), S.r1, Some(S.B))];
    SceneB2Again(x);
    x := x + [Scene(S.r1, Propose(S.mB2p), S.q2, Some(S.B2))];
    SceneB3(x);
    x := x + [Scene(S.m3, Propose(S.mB3p), S.m4, Some(S.B3))];
  }

  lemma ReturnScenes() returns (x: seq<Scene>)
    ensures Plays(x) && Opens(x, S.P, S.A, S.A2, S.qcP, S.qcA, S.qcA2)
    ensures Returns(x, S.P, S.qcP, S.B, S.B2, S.B3, S.qcB3)
    ensures Coherent(x[0].from) && x[0].from.log == [] && Apart(x[2].to, x[10].to)
  {
    x := BranchScenes();
    SceneB3Again(x);
    x := x + [Scene(S.q2, Propose(S.mB3p), S.q3, Some(S.B3))];
    var u := SceneCommitB2(x);
    x := x + [Scene(S.q3, Vote(S.vB3), u, None)];
    S.Numbers();
    Siblings(x[2].to.log[0], u.log[0]);
  }

  /** Nobody signs two blocks at one height and every certificate is counted right, but some are
      remembered from another parent: honest replicas commit conflicting blocks. */
  lemma RememberedConflict() returns (start: Net, run: seq<NetEvent>, net: Net)
    ensures EndsInConflict(Rules(c3, true, false, true), start, run, net) && SingleSigned(c3, net.sigs)
  {
    var x := ReturnScenes();
    var sigs := ReturnSigs(S.A, S.A2, S.B, S.B2, S.B3);
    run := ReturnRun(x, S.P, S.A, S.A2, S.qcP, S.qcA, S.qcA2, S.B, S.B2, S.B3, S.qcB3);
    ReturnSingle(S.P, S.A, S.A2, S.B, S.B2, S.B3);
    start, net := Stage([], [x[0].from, x[0].from, x[0].from]), Stage(sigs, [x[2].to, x[8].to, x[10].to]);
    Committees();
    Ending(Rules(c3, true, false, true), run, sigs, x[0].from, x[2].to, x[8].to, x[10].to, {(1, S.qcP), (2, S.qcP)});
  }

  lemma SceneBAfterA(x: seq<Scene>)
    requires Plays(x)
    ensures Plays(x + [Scene(S.s1, Propose(S.mB), S.s2, Some(S.B))])
  {
    S.VotesB();
    WithScene(x, Scene(S.s1, Propose(S.mB), S.s2, Some(S.B)));
  }

  lemma SceneA2AfterB(x: seq<Scene>)
    requires Plays(x)
    ensures Plays(x + [Scene(S.s2, Propose(S.mA2), S.s3, Some(S.A2))])
  {
    S.VotesA2();
    WithScene(x, Scene(S.s2, Propose(S.mA2), S.s3, Some(S.A2)));
  }

  lemma SceneB2(x: seq<Scene>)
    requires Plays(x)
    ensures Plays(x + [Scene(S.s3, Propose(S.mB2), S.s4, Some(S.B2))])
  {
    S.VotesB2();
    WithScene(x, Scene(S.s3, Propose(S.mB2), S.s4, Some(S.B2)));
  }

  lemma SceneCommitB(x: seq<Scene>) returns (u: State)
    requires Plays(x)
    ensures Plays(x + [Scene(S.s4, Vote(S.vB2), u, None)]) && u.log == [Commit(S.dB, S.qcB)]
  {
    u := Step(S.s4, Vote(S.vB2));
    S.CommitsB();
    WithScene(x, Scene(S.s4, Vote(S.vB2), u, None));
  }

  lemma DoubleScenes() returns (x: seq<Scene>)
    ensures Plays(x) && Opens(x, S.P, S.A, S.A2, S.qcP, S.qcA, S.qcA2)
    ensures Doubles(x, S.P, S.A2, S.qcP, S.qcA, S.B, S.B2, S.qcB, S.qcB2)
    ensures Coherent(x[0].from) && x[0].from.log == [] && Apart(x[6].to, x[2].to)
  {
    x := FirstScenes();
    SceneBAfterA(x);
    x := x + [Scene(S.s1, Propose(S.mB), S.s2, Some(S.B))];
    SceneA2AfterB(x);
    x := x + [Scene(S.s2, Propose(S.mA2), S.s3, Some(S.A2))];
    SceneB2(x);
    x := x + [Scene(S.s3, Propose(S.mB2), S.s4, Some(S.B2))];
    var u := SceneCommitB(x);
    x := x + [Scene(S.s4, Vote(S.vB2), u, None)];
    S.Numbers();
    Siblings(x[2].to.log[0], u.log[0]);
  }

  /** Every certificate names its proposal's parent and is counted right, but the vote guard admits
      a second vote at the height of the last one: honest replicas commit conflicting blocks. */
  lemma GuardAdmitsConflict() returns (start: Net, run: seq<NetEvent>, net: Net)
    ensures EndsInConflict(Rules(c3, true, true, true), start, run, net) && SoundRun(c3, run)
  {
    var x := DoubleScenes();
    var sigs;
    run, sigs := DoubleRun(x, S.P, S.A, S.A2, S.qcP, S.qcA, S.qcA2, S.B, S.B2, S.qcB, S.qcB2);
    start, net := Stage([], [x[0].from, x[0].from, x[0].from]), Stage(sigs, [x[6].to, x[5].to, x[2].to]);
    Committees();
    Ending(Rules(c3, true, true, true), run, sigs, x[0].from, x[6].to, x[5].to, x[2].to, {(1, S.qcP)});
    assert forall k :: 0 <= k < |run| ==> Keeps(Rules(c3, true, true, true), run[k]);
  }

  lemma SceneA2Full(x: seq<Scene>)
    requires Plays(x)
    ensures Plays(x + [Scene(S.s1, Propose(S.mA2f), S.f2, Some(S.A2))])
  {
    S.VotesA2Full();
    WithScene(x, Scene(S.s1, Propose(S.mA2f), S.f2, Some(S.A2)));
  }

  lemma SceneCommitAFull(x: seq<Scene>) returns (u: State)
    requires Plays(x)
    ensures Plays(x + [Scene(S.f2, Vote(S.vA2f), u, None)]) && u.log == [Commit(S.dA, S.fullA)]
  {
    u := Step(S.f2, Vote(S.vA2f));
    S.CommitsAFull();
    WithScene(x, Scene(S.f2, Vote(S.vA2f), u, None));
  }

  lemma SceneAddsBFull(x: seq<Scene>)
    requires Plays(x)
    ensures Plays(x + [Scene(S.f2, Propose(S.mB), S.f3, None)])
  {
    S.AddsBFull();
    WithScene(x, Scene(S.f2, Propose(S.mB), S.f3, None));
  }

  lemma SceneRaisesBFull(x: seq<Scene>)
    requires Plays(x)
    ensures Plays(x + [Scene(S.f3, Timeout(S.toB), S.f4, None)])
  {
    S.RaisesBFull();
    WithScene(x, Scene(S.f3, Timeout(S.toB), S.f4, None));
  }

  lemma SceneBuildsB2Full(x: seq<Scene>)
    requires Plays(x)
    ensures Plays(x + [Scene(S.f4, Beat(0, S.beat4), S.f5, None)])
  {
    S.BuildsB2Full();
    WithScene(x, Scene(S.f4, Beat(0, S.beat4), S.f5, None));
  }

  lemma SceneCommitMixed(x: seq<Scene>) returns (u: State)
    requires Plays(x)
    ensures Plays(x + [Scene(S.f5, Timeout(S.toMixed), u, None)]) && u.log == [Commit(S.dBm, S.namesB)]
  {
    u := Step(S.f5, Timeout(S.toMixed));
    S.CommitsBMixed();
    WithScene(x, Scene(S.f5, Timeout(S.toMixed), u, None));
  }

  lemma FullScenes() returns (x: seq<Scene>)
    ensures Plays(x) && |x| == 3 && x[0] == Scene(S.s0, Propose(S.mA), S.s1, Some(S.A))
    ensures x[1] == Scene(S.s1, Propose(S.mA2f), S.f2, Some(S.A2))
    ensures x[2].from == S.f2 && x[2].e == Vote(S.vA2f) && x[2].sig == None && x[2].to.log == [Commit(S.dA, S.fullA)]
  {
    x := [];
    SceneA(x);
    x := x + [Scene(S.s0, Propose(S.mA), S.s1, Some(S.A))];
    SceneA2Full(x);
    x := x + [Scene(S.s1, Propose(S.mA2f), S.f2, Some(S.A2))];
    var u := SceneCommitAFull(x);
    x := x + [Scene(S.f2, Vote(S.vA2f), u, None)];
  }

  lemma MixedScenes() returns (x: seq<Scene>)
    ensures Plays(x) && Mixes(x, S.P, S.A, S.A2, S.qcP, S.fullA, S.fullA2, S.B, S.B2, S.mixed)
    ensures Coherent(x[0].from) && x[0].from.log == [] && Apart(x[2].to, x[6].to)
  {
    x := FullScenes();
    SceneAddsBFull(x);
    x := x + [Scene(S.f2, Propose(S.mB), S.f3, None)];
    SceneRaisesBFull(x);
    x := x + [Scene(S.f3, Timeout(S.toB), S.f4, None)];
    SceneBuildsB2Full(x);
    x := x + [Scene(S.f4, Beat(0, S.beat4), S.f5, None)];
    var u := SceneCommitMixed(x);
    x := x + [Scene(S.f5, Timeout(S.toMixed), u, None)];
    S.Numbers();
    Siblings(x[2].to.log[0], u.log[0]);
  }

  /** Nobody signs two blocks at one height, every certificate in a proposal is counted right and
      names its parent, but one arbitrary validator attaches the hash of another block to its vote:
      honest replicas commit conflicting blocks. */
  lemma MixedHashConflict() returns (start: Net, run: seq<NetEvent>, net: Net)
    ensures EndsInConflict(Rules(c4, true, true, false), start, run, net) && SingleSigned(c4, net.sigs)
  {
    var x := MixedScenes();
    run := MixedRun(x, S.P, S.A, S.A2, S.qcP, S.fullA, S.fullA2, S.B, S.B2, S.mixed);
    var sigs := MixedSigs(S.A, S.A2);
    MixedSingle(S.A, S.A2);
    start, net := Stage([], [x[0].from, x[0].from, x[0].from]), Stage(sigs, [x[2].to, x[1].to, x[6].to]);
    Committees();
    Ending(mixedRules, run, sigs, x[0].from, x[2].to, x[1].to, x[6].to, {});
  }
}
