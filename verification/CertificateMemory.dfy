/** The network with the memory of validated certificates spelled out: every replica checks a
    certificate against the parent of the proposal that carries it, unless it remembers the
    certificate from an earlier check. Such runs are runs of Network. */
module CertificateMemory {
  import opened Blocks
  import opened Drafts
  import opened Pacemaker
  import opened Network

  /** Which replica remembers which certificate. */
  type Memory = set<(nat, QC)>

  /** The handler gets as far as the certificate. */
  predicate Examined(s: State, m: Proposal) {
    !s.halted && m.block.Block? && m.block.Number() >= s.lastCommitted.Height() &&
    GetDraft(s, m.store, m.block.parent).Some?
  }

  predicate Checks(c: Config, sigs: seq<Sig>, m: Proposal) {
    m.block.Block? && VerifyQC(c, sigs, m.block.parent, m.qc)
  }

  /** A certificate is accepted because it is remembered or because it verifies for the parent. */
  ghost predicate Permitted(c: Config, net: Net, mem: Memory, ne: NetEvent) {
    if ne.Deliver? && ne.event.Propose? then
      c.Honest(ne.to) && ne.to in net.replicas &&
      (ne.event.proposal.qcValid ==>
        (ne.to, ne.event.proposal.qc) in mem || Checks(c, net.sigs, ne.event.proposal))
    else Allowed(c, net, ne)
  }

  /** What verified is remembered. */
  function Recall(c: Config, net: Net, mem: Memory, ne: NetEvent): Memory
    requires ne.Deliver? ==> ne.to in net.replicas
  {
    if ne.Deliver? && ne.event.Propose? && Examined(net.replicas[ne.to], ne.event.proposal) &&
       Checks(c, net.sigs, ne.event.proposal)
    then mem + {(ne.to, ne.event.proposal.qc)} else mem
  }

  /** `run` leads from `net` to `net'`, and at least `known` is remembered in the end. */
  ghost predicate MemoryRun(c: Config, net: Net, mem: Memory, run: seq<NetEvent>, net': Net, known: Memory)
    decreases |run|
  {
    if run == [] then net == net' && known <= mem
    else
      Permitted(c, net, mem, run[0]) &&
      MemoryRun(c, NetStep(net, run[0]), Recall(c, net, mem, run[0]), run[1..], net', known)
  }

  /** Everything remembered was validated on the signatures made so far. */
  ghost predicate Honored(c: Config, sigs: seq<Sig>, mem: Memory) {
    forall i, qc :: (i, qc) in mem ==> Validated(c, sigs, qc)
  }

  lemma HonoredGrows(c: Config, sigs: seq<Sig>, more: seq<Sig>, mem: Memory)
    requires Honored(c, sigs, mem)
    ensures Honored(c, sigs + more, mem)
  {
    forall i, qc | (i, qc) in mem
      ensures Validated(c, sigs + more, qc)
    {
      var b :| VerifyQC(c, sigs, b, qc);
      assert VerifyQC(c, sigs + more, b, qc);
    }
  }

  lemma PermittedIsAllowed(c: Config, net: Net, mem: Memory, ne: NetEvent)
    requires Honored(c, net.sigs, mem) && Permitted(c, net, mem, ne)
    ensures Allowed(c, net, ne) && Honored(c, NetStep(net, ne).sigs, Recall(c, net, mem, ne))
  {
    var next := Recall(c, net, mem, ne);
    assert Honored(c, net.sigs, next);
    match ne
    case Forge(v, b) => HonoredGrows(c, net.sigs, [Sig(v, b)], next);
    case Deliver(i, e) => HonoredGrows(c, net.sigs, NewSigs(i, net.replicas[i], e), next);
  }

  /** The network theorems hold for every run with memory. */
  lemma {:induction false} MemoryRunIsNetRun(c: Config, net: Net, mem: Memory, run: seq<NetEvent>, net': Net, known: Memory)
    requires Honored(c, net.sigs, mem) && MemoryRun(c, net, mem, run, net', known)
    ensures NetRun(c, net, run, net')
    decreases |run|
  {
    if run != [] {
      PermittedIsAllowed(c, net, mem, run[0]);
      MemoryRunIsNetRun(c, NetStep(net, run[0]), Recall(c, net, mem, run[0]), run[1..], net', known);
    }
  }

  /** One more step at the end. */
  lemma {:induction false} MemoryRunSnoc(c: Config, net: Net, mem: Memory, run: seq<NetEvent>, mid: Net, known: Memory, ne: NetEvent)
    requires MemoryRun(c, net, mem, run, mid, known) && Permitted(c, mid, known, ne)
    ensures MemoryRun(c, net, mem, run + [ne], NetStep(mid, ne), Recall(c, mid, known, ne))
    decreases |run|
  {
    if run == [] {
      assert run + [ne] == [ne] && [ne][1..] == [];
      assert MemoryRun(c, NetStep(net, ne), Recall(c, net, mem, ne), [], NetStep(mid, ne), Recall(c, mid, known, ne));
    } else {
      MemoryRunSnoc(c, NetStep(net, run[0]), Recall(c, net, mem, run[0]), run[1..], mid, known, ne);
      assert (run + [ne])[1..] == run[1..] + [ne];
    }
  }
}
