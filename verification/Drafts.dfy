/** Draft blocks, the certificates they carry, and walks along their parent pointers. */
module Drafts {
  import opened Blocks

  /** A quorum certificate. `hash` is the voting hash, identified with the block it names;
      `voters` are the set bits of the voter bit array. */
  datatype QC = QC(height: nat, round: nat, hash: Block, voters: set<nat>)

  /** What processing a proposal left behind: `SuccessProcessed` without an error, with
      the "known block" error, or not set at all. */
  datatype Processed = Success | Known | Unprocessed

  /** A draft. The program compares drafts by pointer, so each carries the handle under
      which it was allocated. `qc` is the certificate inside the proposed block, `justify`
      the node its certificate was paired with. Drafts rebuilt from the block store have
      neither parent nor justification and are born committed. */
  datatype Draft = Draft(
    handle: nat,
    block: Block,
    round: nat,
    qc: QC,
    parent: Option<Draft>,
    justify: Option<Draft>,
    fromStore: bool,
    processed: Processed)
  {
    function Height(): nat {
      block.Number()
    }
  }

  datatype DraftQC = DraftQC(qc: QC, node: Option<Draft>)

  /** One entry of a commit batch: a block and the certificate handed over with it. */
  datatype Commit = Commit(draft: Draft, escortQC: QC)

  /** Parent pointers agree with parent identifiers all the way down. */
  predicate Linked(d: Draft) {
    d.parent.Some? ==>
      d.block.Block? && d.parent.value.block == d.block.parent && Linked(d.parent.value)
  }

  /** `a` is reached from `d` by following at least one parent pointer. */
  predicate Under(d: Draft, a: Draft) {
    d.parent.Some? && (d.parent.value == a || Under(d.parent.value, a))
  }

  lemma {:induction false} UnderExtends(d: Draft, a: Draft)
    requires Linked(d) && Under(d, a)
    ensures Linked(a) && a.Height() < d.Height() && Extends(d.block, a.block)
  {
    if d.parent.value != a {
      UnderExtends(d.parent.value, a);
    }
  }

  predicate Escorts(child: Draft, c: Commit) {
    child.parent == Some(c.draft) && child.qc == c.escortQC
  }

  /** The certificate handed over is the one carried by a child of the block. */
  ghost predicate Escorted(c: Commit) {
    exists child: Draft :: Escorts(child, c)
  }

  /** Every entry's parent pointer is the entry before it, the first one's is `anchor`. */
  predicate Chained(anchor: Draft, log: seq<Commit>) {
    forall k {:trigger Before(anchor, log, k)} :: 0 <= k < |log| ==> log[k].draft.parent == Some(Before(anchor, log, k))
  }

  function Before(anchor: Draft, log: seq<Commit>, k: nat): Draft
    requires k <= |log|
  {
    if k == 0 then anchor else log[k - 1].draft
  }

  function Tip(anchor: Draft, log: seq<Commit>): Draft {
    Before(anchor, log, |log|)
  }

  /** A commit history: parent-linked from `anchor`, each entry escorted by a child. */
  ghost predicate CommitChain(anchor: Draft, log: seq<Commit>) {
    Chained(anchor, log) && (forall k :: 0 <= k < |log| ==> Escorted(log[k]))
  }

  lemma CommitChainConcat(anchor: Draft, log: seq<Commit>, batch: seq<Commit>)
    requires CommitChain(anchor, log) && CommitChain(Tip(anchor, log), batch)
    ensures CommitChain(anchor, log + batch)
    ensures Tip(anchor, log + batch) == Tip(Tip(anchor, log), batch)
  {
    var all := log + batch;
    forall k | 0 <= k < |all|
      ensures all[k].draft.parent == Some(Before(anchor, all, k))
    {
      if k < |log| {
        assert Before(anchor, all, k) == Before(anchor, log, k);
      } else {
        assert Before(anchor, all, k) == Before(Tip(anchor, log), batch, k - |log|);
      }
    }
  }

  lemma CommitChainSplit(anchor: Draft, log: seq<Commit>, batch: seq<Commit>)
    requires CommitChain(anchor, log + batch)
    ensures CommitChain(Tip(anchor, log), batch)
    ensures Tip(anchor, log + batch) == Tip(Tip(anchor, log), batch)
  {
    var all := log + batch;
    forall k | 0 <= k < |batch|
      ensures batch[k].draft.parent == Some(Before(Tip(anchor, log), batch, k)) && Escorted(batch[k])
    {
      assert all[|log| + k] == batch[k];
      assert all[|log| + k].draft.parent == Some(Before(anchor, all, |log| + k));
      if k > 0 {
        assert all[|log| + k - 1] == batch[k - 1];
      }
    }
  }

  lemma ChildOf(d: Draft, p: Draft)
    requires Linked(d) && d.parent == Some(p)
    ensures d.block.Block? && d.block.parent == p.block && d.Height() == p.Height() + 1 && Linked(p)
  {
  }

  /** Along a commit history heights are consecutive and every block extends the anchor. */
  lemma {:induction false} CommitChainHeights(anchor: Draft, log: seq<Commit>, k: nat)
    requires Chained(anchor, log) && k < |log|
    requires forall i :: 0 <= i < |log| ==> Linked(log[i].draft)
    ensures log[k].draft.Height() == anchor.Height() + 1 + k
    ensures Extends(log[k].draft.block, anchor.block)
  {
    ChildOf(log[k].draft, Before(anchor, log, k));
    if k > 0 {
      CommitChainHeights(anchor, log, k - 1);
    }
  }

  lemma {:induction false} CommitChainExtends(anchor: Draft, log: seq<Commit>, i: nat, k: nat)
    requires Chained(anchor, log) && i < k < |log|
    requires forall i :: 0 <= i < |log| ==> Linked(log[i].draft)
    ensures Extends(log[k].draft.block, log[i].draft.block)
  {
    ChildOf(log[k].draft, Before(anchor, log, k));
    if i < k - 1 {
      CommitChainExtends(anchor, log, i, k - 1);
    }
  }

  /** Each block of a commit history extends every earlier one, and none occurs twice. */
  lemma CommitChainOrdered(anchor: Draft, log: seq<Commit>, i: nat, k: nat)
    requires Chained(anchor, log) && i < k < |log|
    requires forall i :: 0 <= i < |log| ==> Linked(log[i].draft)
    ensures Extends(log[k].draft.block, log[i].draft.block)
    ensures log[i].draft.block != log[k].draft.block
  {
    CommitChainHeights(anchor, log, i);
    CommitChainHeights(anchor, log, k);
    CommitChainExtends(anchor, log, i, k);
  }

  /** The blocks between `bPrime` and the first ancestor no higher than `floor`, oldest
      first, each with the certificate its child carries; `None` when a parent pointer is
      missing on the way. */
  function CommitReady(tmp: Draft, floor: nat): Option<seq<Commit>> {
    if tmp.parent.None? then None
    else if tmp.parent.value.Height() > floor then
      match CommitReady(tmp.parent.value, floor)
      case None => None
      case Some(rest) => Some(rest + [Commit(tmp.parent.value, tmp.qc)])
    else Some([])
  }

  /** The batch is a commit history from `last` up to the parent of `bPrime`
      exactly when `bPrime` lies under `last`. */
  lemma {:induction false} CommitReadyIsPathIff(bPrime: Draft, last: Draft)
    requires Linked(bPrime) && bPrime.parent.Some?
    ensures Under(bPrime, last) <==>
      var batch := CommitReady(bPrime, last.Height());
      batch.Some? && CommitChain(last, batch.value) && Tip(last, batch.value) == bPrime.parent.value
  {
    var p := bPrime.parent.value;
    var batch := CommitReady(bPrime, last.Height());
    if Under(bPrime, last) {
      if p == last {
        assert batch == Some([]);
      } else {
        UnderExtends(p, last);
        CommitReadyIsPathIff(p, last);
        var rest := CommitReady(p, last.Height()).value;
        var c := Commit(p, bPrime.qc);
        assert Escorts(bPrime, c);
        assert CommitChain(Tip(last, rest), [c]);
        CommitChainConcat(last, rest, [c]);
      }
    } else if batch.Some? && CommitChain(last, batch.value) && Tip(last, batch.value) == p && batch.value != [] {
      ChainedReachesAnchor(last, batch.value, |batch.value| - 1);
      assert false;
    }
  }

  lemma {:induction false} ChainedReachesAnchor(anchor: Draft, log: seq<Commit>, k: nat)
    requires Chained(anchor, log) && k < |log|
    ensures Under(log[k].draft, anchor)
  {
    assert log[k].draft.parent == Some(Before(anchor, log, k));
    if k > 0 {
      ChainedReachesAnchor(anchor, log, k - 1);
    }
  }
}
