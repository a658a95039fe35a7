/** No transaction occurs twice on the committed chain together with the uncommitted
    drafts on top of it. */
module DoubleInclusion {
  import opened Blocks
  import opened Drafts
  import opened Pacemaker
  import opened CommitRuns
  import opened ProposalRuns

  /** All transactions from genesis to `b`, in order. */
  function ChainTxs(b: Block): seq<TxId> {
    if b.Genesis? then [] else ChainTxs(b.parent) + b.txs
  }

  predicate NoRepeat(txs: seq<TxId>) {
    forall i, j :: 0 <= i < j < |txs| ==> txs[i] != txs[j]
  }

  /** The transaction lookup of block verification: the transaction is in a trunk block no
      higher than `head`. */
  ghost predicate OnTrunk(store: Store, t: TxId, head: nat) {
    exists n :: n in store.trunk && n <= head && t in store.trunk[n].Transactions()
  }

  /** What a successful execution established about the block's transactions. */
  ghost predicate VerifiedTxs(m: Proposal) {
    m.block.Block? && m.execution == Executed ==>
      NoRepeat(m.block.txs) &&
      forall t :: t in m.block.txs ==> !OnTrunk(m.store, t, m.block.parent.Number())
  }

  /** Every commit so far went through: the trunk holds the committed chain. */
  ghost predicate StoreHolds(s: State, store: Store) {
    forall a: Block :: Extends(s.lastCommitted.block, a) ==>
      a.Number() in store.trunk && store.trunk[a.Number()] == a
  }

  // ---------- the walk covers the chain ----------

  lemma {:induction false} TrunkCovers(store: Store, last: Block, b: Block, t: TxId)
    requires Extends(last, b) && t in ChainTxs(b)
    requires forall a: Block :: Extends(last, a) ==> a.Number() in store.trunk && store.trunk[a.Number()] == a
    ensures OnTrunk(store, t, b.Number())
  {
    if t in b.txs {
      assert store.trunk[b.Number()] == b;
    } else {
      ExtendsTransitive(last, b, b.parent);
      TrunkCovers(store, last, b.parent, t);
      var n :| n in store.trunk && n <= b.parent.Number() && t in store.trunk[n].Transactions();
    }
  }

  /** On top of the last committed draft, every transaction of the chain is either
      collected by the walk over uncommitted drafts or found on the trunk. */
  lemma {:induction false} WalkCovers(s: State, store: Store, d: Draft, t: TxId)
    requires Coherent(s) && Settled(s) && StoreHolds(s, store)
    requires d.block in s.drafts && s.drafts[d.block] == d && (d == s.lastCommitted || Under(d, s.lastCommitted))
    requires forall id :: id in s.drafts && Under(s.drafts[id], s.lastCommitted) ==> !Committed(s, s.drafts[id])
    requires t in ChainTxs(d.block)
    ensures t in TxsInCache(s, store, d.block) || OnTrunk(store, t, d.Height())
  {
    if d == s.lastCommitted {
      TrunkCovers(store, d.block, d.block, t);
    } else {
      UnderExtends(d, s.lastCommitted);
      assert GetDraft(s, store, d.block) == Some(d) && !Committed(s, d);
      if t !in d.block.txs {
        var p := d.parent.value;
        if p != s.lastCommitted {
          UnderExtends(p, s.lastCommitted);
          assert ParentKept(s, d);
        }
        WalkCovers(s, store, p, t);
        if OnTrunk(store, t, p.Height()) {
          var n :| n in store.trunk && n <= p.Height() && t in store.trunk[n].Transactions();
        }
      }
    }
  }

  // ---------- the invariant ----------

  /** Handles tell drafts apart and nothing on top of the last committed draft is flagged. */
  predicate Distinct(s: State) {
    (forall h :: h in s.flagged ==> h < s.nextHandle) &&
    (forall a, b :: a in s.drafts && b in s.drafts && a != b ==> s.drafts[a].handle != s.drafts[b].handle) &&
    (forall id :: id in s.drafts && s.drafts[id].parent.Some? ==> s.drafts[id].parent.value.handle < s.nextHandle) &&
    forall id :: id in s.drafts && Under(s.drafts[id], s.lastCommitted) ==> !Committed(s, s.drafts[id])
  }

  /** No chain that ends in the last committed draft or a draft on top of it repeats a
      transaction. */
  predicate NoneTwice(s: State) {
    forall id :: id in s.drafts && (s.drafts[id] == s.lastCommitted || Under(s.drafts[id], s.lastCommitted)) ==>
      NoRepeat(ChainTxs(id))
  }

  lemma NoRepeatConcat(a: seq<TxId>, b: seq<TxId>)
    requires NoRepeat(a) && NoRepeat(b) && forall t :: t in b ==> t !in a
    ensures NoRepeat(a + b)
  {
    var c := a + b;
    forall i, j | 0 <= i < j < |c|
      ensures c[i] != c[j]
    {
      if i < |a| <= j {
        assert c[i] in a && c[j] in b;
      } else if |a| <= i {
        assert c[i] == b[i - |a|] && c[j] == b[j - |a|];
      }
    }
  }

  /** Transactions that neither the walk nor the trunk knows are new to the chain of a draft on
      top of the last committed one. */
  lemma NewOnTop(s: State, store: Store, p: Draft, txs: seq<TxId>)
    requires Coherent(s) && Settled(s) && Distinct(s) && NoneTwice(s) && StoreHolds(s, store)
    requires p.block in s.drafts && s.drafts[p.block] == p && (p == s.lastCommitted || Under(p, s.lastCommitted))
    requires NoRepeat(txs) && forall t :: t in txs ==> t !in TxsInCache(s, store, p.block) && !OnTrunk(store, t, p.Height())
    ensures NoRepeat(ChainTxs(p.block) + txs)
  {
    forall t | t in txs
      ensures t !in ChainTxs(p.block)
    {
      if t in ChainTxs(p.block) {
        WalkCovers(s, store, p, t);
      }
    }
    NoRepeatConcat(ChainTxs(p.block), txs);
  }

  /** The parent of a draft accepted on top of the last committed one is in the map. */
  lemma AcceptedParent(s: State, m: Proposal)
    requires Coherent(s) && Settled(s) && Accept(s, m).Some? && Under(Accept(s, m).value, s.lastCommitted)
    ensures var p := Accept(s, m).value.parent.value;
      InMap(s, p) && p.block == m.block.parent && (p == s.lastCommitted || Under(p, s.lastCommitted))
  {
  }

  /** An executed proposal on top of the last committed draft repeats no transaction of
      its chain. */
  lemma AcceptedIsNew(s: State, m: Proposal)
    requires Coherent(s) && Settled(s) && Distinct(s) && NoneTwice(s) && StoreHolds(s, m.store)
    requires m.execution == Executed && VerifiedTxs(m)
    requires Accept(s, m).Some? && Under(Accept(s, m).value, s.lastCommitted)
    ensures NoRepeat(ChainTxs(m.block))
  {
    AcceptedParent(s, m);
    NewOnTop(s, m.store, Accept(s, m).value.parent.value, m.block.txs);
  }

  // ---------- exactly when a repetition gets through ----------

  /** The walk over uncommitted drafts that starts at `b` visits `a`. */
  predicate Walked(s: State, store: Store, b: Block, a: Block) {
    match GetDraft(s, store, b)
    case None => false
    case Some(d) => !Committed(s, d) && (b == a || (b.Block? && Walked(s, store, b.parent, a)))
  }

  predicate HeldBy(store: Store, a: Block) {
    a.Number() in store.trunk && store.trunk[a.Number()] == a
  }

  /** Ancestor `a` of the proposal has its transaction `t`, and no check finds it there: the walk
      does not come to `a` or is skipped because the state cannot be opened, and the trunk does not
      hold `a` or is not searched because the block was not executed. */
  predicate Overlooked(s: State, m: Proposal, a: Block, t: TxId)
    requires m.block.Block?
  {
    t in m.block.txs && Extends(m.block.parent, a) && t in a.Transactions() &&
    (m.execution == StateUnavailable || !Walked(s, m.store, m.block.parent, a)) &&
    (m.execution == Executed ==> !HeldBy(m.store, a))
  }

  /** The block of the proposal adds a repetition to its chain: one that is overlooked, or one
      within the block itself, which only execution finds. */
  ghost predicate Slips(s: State, m: Proposal)
    requires m.block.Block?
  {
    (m.execution != Executed && !NoRepeat(m.block.txs)) || exists a, t :: Overlooked(s, m, a, t)
  }

  lemma {:induction false} WalkedIsCached(s: State, store: Store, b: Block, a: Block, t: TxId)
    requires Walked(s, store, b, a) && t in a.Transactions()
    ensures t in TxsInCache(s, store, b)
  {
    if b != a {
      WalkedIsCached(s, store, b.parent, a, t);
    }
  }

  lemma {:induction false} InSomeAncestor(b: Block, t: TxId) returns (a: Block)
    requires t in ChainTxs(b)
    ensures Extends(b, a) && t in a.Transactions()
  {
    if t in b.txs {
      a := b;
    } else {
      a := InSomeAncestor(b.parent, t);
    }
  }

  lemma {:induction false} AncestorTxs(b: Block, a: Block, t: TxId)
    requires Extends(b, a) && t in a.Transactions()
    ensures t in ChainTxs(b)
  {
    if b != a {
      AncestorTxs(b.parent, a, t);
    }
  }

  lemma SharedRepeats(a: seq<TxId>, b: seq<TxId>, t: TxId)
    requires t in a && t in b
    ensures !NoRepeat(a + b)
  {
    var i :| 0 <= i < |a| && a[i] == t;
    var j :| 0 <= j < |b| && b[j] == t;
    assert (a + b)[i] == (a + b)[|a| + j];
  }

  lemma PrefixRepeats(a: seq<TxId>, b: seq<TxId>)
    requires !NoRepeat(a)
    ensures !NoRepeat(a + b)
  {
    var i, j :| 0 <= i < j < |a| && a[i] == a[j];
    assert (a + b)[i] == (a + b)[j];
  }

  lemma SuffixRepeats(a: seq<TxId>, b: seq<TxId>)
    requires !NoRepeat(b)
    ensures !NoRepeat(a + b)
  {
    var i, j :| 0 <= i < j < |b| && b[i] == b[j];
    assert (a + b)[|a| + i] == (a + b)[|a| + j];
  }

  /** What is in an ancestor and not overlooked is refused. */
  lemma NotOverlooked(s: State, m: Proposal, t: TxId)
    requires Accept(s, m).Some? && VerifiedTxs(m) && t in m.block.txs && t in ChainTxs(m.block.parent)
    ensures exists a :: Overlooked(s, m, a, t)
  {
    var a := InSomeAncestor(m.block.parent, t);
    if Walked(s, m.store, m.block.parent, a) {
      WalkedIsCached(s, m.store, m.block.parent, a, t);
    }
    ExtendsGrows(m.block.parent, a);
    assert Overlooked(s, m, a, t);
  }

  /** In any state whatever: an accepted proposal, whatever became of its execution, repeats a
      transaction of its chain exactly when its parent's chain does already or its block slips
      through. */
  lemma RepeatsIff(s: State, m: Proposal)
    requires Accept(s, m).Some? && VerifiedTxs(m)
    ensures !NoRepeat(ChainTxs(m.block)) <==> !NoRepeat(ChainTxs(m.block.parent)) || Slips(s, m)
  {
    var before, txs := ChainTxs(m.block.parent), m.block.txs;
    if !NoRepeat(before) {
      PrefixRepeats(before, txs);
    } else if !NoRepeat(txs) {
      SuffixRepeats(before, txs);
    } else if a, t :| Overlooked(s, m, a, t) {
      AncestorTxs(m.block.parent, a, t);
      SharedRepeats(before, txs, t);
    } else {
      forall t | t in txs
        ensures t !in before
      {
        if t in before {
          NotOverlooked(s, m, t);
        }
      }
      NoRepeatConcat(before, txs);
    }
  }

  lemma AddKeepsDistinct(s: State, d: Draft)
    requires Settled(s) && Distinct(s) && d.handle == s.nextHandle + 1 && !d.fromStore
    requires d.parent.Some? ==> d.parent.value.handle <= s.nextHandle
    ensures Distinct(AddIfAbsent(s, d))
  {
    var s1 := AddIfAbsent(s, d);
    forall a, b | a in s1.drafts && b in s1.drafts && a != b
      ensures s1.drafts[a].handle != s1.drafts[b].handle
    {
      assert a in s.drafts || s1.drafts[a] == d;
      assert b in s.drafts || s1.drafts[b] == d;
    }
  }

  /** The proposal adds a draft on top of the last committed one. */
  predicate AddsOnTop(s: State, m: Proposal) {
    Accept(s, m).Some? && m.block !in s.drafts && Under(Accept(s, m).value, s.lastCommitted)
  }

  /** Accepting a proposal keeps every chain on top of the last committed draft free of repetitions
      exactly when it adds no draft there, or was executed, or does not slip through. */
  lemma AcceptKeepsNoneTwiceIff(s: State, m: Proposal)
    requires Coherent(s) && Settled(s) && Distinct(s) && NoneTwice(s) && StoreHolds(s, m.store)
    requires VerifiedTxs(m) && Accept(s, m).Some?
    ensures var s1 := AddIfAbsent(s, Accept(s, m).value);
      Distinct(s1) && (NoneTwice(s1) <==> !AddsOnTop(s, m) || m.execution == Executed || !Slips(s, m))
  {
    var d := Accept(s, m).value;
    var s1 := AddIfAbsent(s, d);
    AddKeepsDistinct(s, d);
    if AddsOnTop(s, m) {
      assert s1.drafts[m.block] == d;
      AcceptedParent(s, m);
      RepeatsIff(s, m);
      if m.execution == Executed {
        AcceptedIsNew(s, m);
      }
    }
  }

  // ---------- commits ----------

  predicate FlagOf(s: State, d: Draft, h: nat) {
    d.block in s.drafts && s.drafts[d.block].handle == h
  }

  /** Committing flags only drafts of the batch. */
  lemma {:induction false} OnCommitFlags(s: State, batch: seq<Commit>, h: nat)
    requires h in OnCommit(s, batch).flagged
    ensures h in s.flagged || exists k :: 0 <= k < |batch| && FlagOf(s, batch[k].draft, h) && ReachesPruning(batch[k].draft)
    decreases |batch|
  {
    if batch != [] {
      var d := batch[0].draft;
      var s1 := if ReachesPruning(d) then PruneUpTo(s, d) else s;
      OnCommitFlags(s1, batch[1..], h);
      if h !in s.flagged && h !in s1.flagged {
        var k :| 0 <= k < |batch[1..]| && FlagOf(s1, batch[1..][k].draft, h) && ReachesPruning(batch[1..][k].draft);
        assert batch[k + 1] == batch[1..][k];
      } else if h !in s.flagged {
        assert FlagOf(s, batch[0].draft, h);
      }
    }
  }

  lemma {:induction false} UnderTransitive(c: Draft, b: Draft, a: Draft)
    requires Under(c, b) && Under(b, a)
    ensures Under(c, a)
  {
    if c.parent.value != b {
      UnderTransitive(c.parent.value, b, a);
    }
  }

  /** `batch` is the path from the last committed draft to the parent of `bPrime`, and `s1` is `s`
      as far as committing is concerned. */
  predicate Committing(s: State, bPrime: Draft, s1: State, batch: seq<Commit>) {
    Coherent(s) && Settled(s) && Distinct(s) && InMap(s, bPrime) && Under(bPrime, s.lastCommitted) &&
    CommitReady(bPrime, s.lastCommitted.Height()) == Some(batch) &&
    s1.drafts == s.drafts && s1.flagged == s.flagged && s1.nextHandle == s.nextHandle
  }

  lemma CommitFlagsAllocated(s: State, bPrime: Draft, s1: State, batch: seq<Commit>, h: nat)
    requires Committing(s, bPrime, s1, batch) && h in OnCommit(s1, batch).flagged
    ensures h < s.nextHandle
  {
    BatchShape(s, bPrime);
    OnCommitFlags(s1, batch, h);
  }

  /** Committing flags nothing above the batch. */
  lemma CommitFlagsNoneAbove(s: State, bPrime: Draft, s1: State, batch: seq<Commit>, d: Draft)
    requires Committing(s, bPrime, s1, batch) && InMap(s, d) && Under(d, bPrime.parent.value)
    ensures !Committed(OnCommit(s1, batch), d)
  {
    BatchShape(s, bPrime);
    StaysOnTop(s, bPrime, d);
    UnderExtends(d, bPrime.parent.value);
    if d.handle in OnCommit(s1, batch).flagged {
      OnCommitFlags(s1, batch, d.handle);
      assert false;
    }
  }

  /** Nor the end of the batch, unless that reaches the pruning step. */
  lemma CommitFlagsLast(s: State, bPrime: Draft, s1: State, batch: seq<Commit>)
    requires Committing(s, bPrime, s1, batch)
    requires bPrime.parent.value != s.lastCommitted && !ReachesPruning(bPrime.parent.value)
    ensures !Committed(OnCommit(s1, batch), bPrime.parent.value)
  {
    var last := bPrime.parent.value;
    BatchShape(s, bPrime);
    PathEnds(s, bPrime);
    StaysOnTop(s, bPrime, last);
    if last.handle in OnCommit(s1, batch).flagged {
      OnCommitFlags(s1, batch, last.handle);
      assert false;
    }
  }

  /** Committing the path up to the parent of `bPrime` keeps both invariants. */
  lemma CommitKeepsNoneTwice(s: State, bPrime: Draft, s1: State, batch: seq<Commit>)
    requires Committing(s, bPrime, s1, batch) && NoneTwice(s)
    ensures var u := OnCommit(s1, batch).(lastCommitted := bPrime.parent.value); Distinct(u) && NoneTwice(u)
  {
    var last := bPrime.parent.value;
    var u := OnCommit(s1, batch).(lastCommitted := last);
    OnCommitFrame(s1, batch);
    forall h | h in u.flagged
      ensures h < u.nextHandle
    {
      CommitFlagsAllocated(s, bPrime, s1, batch, h);
    }
    forall id | id in u.drafts && (u.drafts[id] == last || Under(u.drafts[id], last))
      ensures u.drafts[id] == s.lastCommitted || Under(u.drafts[id], s.lastCommitted)
      ensures Under(u.drafts[id], last) ==> !Committed(u, u.drafts[id])
    {
      StaysOnTop(s, bPrime, u.drafts[id]);
      if Under(u.drafts[id], last) {
        CommitFlagsNoneAbove(s, bPrime, s1, batch, u.drafts[id]);
      }
    }
  }

  /** A committing update under the last committed draft keeps both invariants. */
  lemma UpdateKeepsNoneTwice(s: State, store: Store, qc: QC)
    requires Coherent(s) && Settled(s) && Distinct(s) && NoneTwice(s) && Commits(s, store, qc)
    requires Under(GetByEscortQC(s, store, qc).value, s.lastCommitted)
    ensures Distinct(Update(s, store, qc)) && NoneTwice(Update(s, store, qc))
  {
    var bPrime := GetByEscortQC(s, store, qc).value;
    UpdateCommits(s, store, qc);
    var batch := CommitReady(bPrime, s.lastCommitted.Height()).value;
    var s1 := UpdateQCHigh(s, DraftQC(qc, Some(bPrime))).(log := s.log + batch);
    CommitKeepsNoneTwice(s, bPrime, s1, batch);
    assert Update(s, store, qc) == OnCommit(s1, batch).(lastCommitted := bPrime.parent.value);
  }

  /** A committing update under the last committed draft leaves the replica settled exactly when it
      ends pruning: the flag of the new last committed draft is set nowhere else. */
  lemma UpdateSettlesIff(s: State, store: Store, qc: QC)
    requires Coherent(s) && Settled(s) && Distinct(s) && Commits(s, store, qc)
    requires Under(GetByEscortQC(s, store, qc).value, s.lastCommitted)
    ensures Settled(Update(s, store, qc)) <==> EndsPruning(s, store, qc)
    ensures Committed(Update(s, store, qc), Update(s, store, qc).lastCommitted) <==> EndsPruning(s, store, qc)
  {
    var u := Update(s, store, qc);
    var bPrime := GetByEscortQC(s, store, qc).value;
    UpdateCommits(s, store, qc);
    if EndsPruning(s, store, qc) {
      UpdateSettles(s, store, qc);
    } else {
      var batch := CommitReady(bPrime, s.lastCommitted.Height()).value;
      var s1 := UpdateQCHigh(s, DraftQC(qc, Some(bPrime))).(log := s.log + batch);
      CommitFlagsLast(s, bPrime, s1, batch);
      assert u == OnCommit(s1, batch).(lastCommitted := bPrime.parent.value);
    }
  }

  lemma StaysOnTop(s: State, bPrime: Draft, d: Draft)
    requires Under(bPrime, s.lastCommitted) && (d == bPrime.parent.value || Under(d, bPrime.parent.value))
    ensures d == s.lastCommitted || Under(d, s.lastCommitted)
  {
    var last := bPrime.parent.value;
    if last != s.lastCommitted && d != last {
      UnderTransitive(d, last, s.lastCommitted);
    }
  }

  /** Without that the message leaves the replica unsettled. */
  lemma UnprunedUnsettles(s: State, store: Store, qc: QC, u: State)
    requires Coherent(s) && Settled(s) && Distinct(s) && UpdateGuard(s, store, qc) && !OrderlyUpdate(s, store, qc)
    requires SameMap(Update(s, store, qc), u)
    ensures !Settled(u)
  {
    UpdateSettlesIff(s, store, qc);
  }

  lemma DistinctFrame(s: State, u: State)
    requires Distinct(s) && SameMap(s, u)
    ensures Distinct(u)
  {
  }

  lemma ProposalUnsettles(s: State, m: Proposal)
    requires Coherent(s) && Settled(s) && Distinct(s) && Guarded(s, Propose(m)) && !Orderly(s, Propose(m))
    ensures !Settled(OnReceiveProposal(s, m))
  {
    var d := Accept(s, m).value;
    AcceptKeepsSettled(s, m);
    AddKeepsDistinct(s, d);
    ProposalMap(s, m);
    UnprunedUnsettles(AddIfAbsent(s, d), m.store, m.qc, OnReceiveProposal(s, m));
  }

  lemma VoteUnsettles(s: State, v: VoteMsg)
    requires Coherent(s) && Settled(s) && Distinct(s) && Guarded(s, Vote(v)) && !Orderly(s, Vote(v))
    ensures !Settled(OnReceiveVote(s, v))
  {
    VoteMap(s, v);
    SettledFrame(s, Raised(s, v));
    DistinctFrame(s, Raised(s, v));
    UnprunedUnsettles(Raised(s, v), v.store, v.formed.value, OnReceiveVote(s, v));
  }

  lemma TimeoutUnsettles(s: State, t: TimeoutMsg)
    requires Coherent(s) && Settled(s) && Distinct(s) && Guarded(s, Timeout(t)) && !Orderly(s, Timeout(t))
    ensures !Settled(OnReceiveTimeout(s, t))
  {
    TimeoutMap(s, t);
    FormedMap(s, t);
    SettledFrame(s, FirstRaise(s, t));
    DistinctFrame(s, FirstRaise(s, t));
    UnprunedUnsettles(FirstRaise(s, t), t.store, t.formed.value, OnReceiveTimeout(s, t));
  }

  /** A proposal, vote, timeout message or round timeout keeps the commit history and leaves the
      replica settled exactly when it is orderly. */
  lemma OrderlyStepIff(base: Draft, s: State, e: Event)
    requires History(base, s) && Settled(s) && Distinct(s) && !e.Beat?
    ensures History(base, Step(s, e)) && Settled(Step(s, e)) <==> Orderly(s, e)
  {
    if Orderly(s, e) {
      OrderlyStep(base, s, e);
    } else {
      StepKeepsHistoryIff(base, s, e);
      if Guarded(s, e) {
        match e
        case Propose(m) => ProposalUnsettles(s, m);
        case Vote(v) => VoteUnsettles(s, v);
        case Timeout(t) => TimeoutUnsettles(s, t);
      }
    }
  }

  // ---------- runs ----------

  ghost predicate Sane(base: Draft, s: State) {
    History(base, s) && Settled(s) && Distinct(s) && NoneTwice(s)
  }

  /** What choosing the contents of a block established: no transaction of an uncommitted draft
      under it, none on the trunk, none twice. */
  ghost predicate FreshTxs(s: State, store: Store, parent: Block, txs: seq<TxId>) {
    NoRepeat(txs) &&
    forall t :: t in txs ==> t !in TxsInCache(s, store, parent) && !OnTrunk(store, t, parent.Number())
  }

  /** An orderly message; the transactions of a block in it were checked against a store that
      holds the committed chain, or add no repetition on top of it. */
  ghost predicate Honest(s: State, e: Event) {
    Orderly(s, e) &&
    match e
    case Propose(m) =>
      VerifiedTxs(m) && StoreHolds(s, m.store) &&
      (AddsOnTop(s, m) && m.execution != Executed ==> !Slips(s, m))
    case Beat(epoch, b) =>
      BeatDraft(s, epoch, b).Some? ==>
        var block := BeatDraft(s, epoch, b).value.block;
        StoreHolds(s, b.store) && FreshTxs(s, b.store, block.parent, block.txs)
    case Vote(_) => true
    case Timeout(_) => true
    case RoundTimeout(_, _) => true
  }

  lemma NoneTwiceFrame(s: State, u: State)
    requires Distinct(s) && NoneTwice(s)
    requires u.drafts == s.drafts && u.flagged == s.flagged && u.lastCommitted == s.lastCommitted
    requires u.nextHandle >= s.nextHandle
    ensures Distinct(u) && NoneTwice(u)
  {
  }

  /** An orderly update, committing or not, keeps all invariants. */
  lemma UpdateKeepsSane(base: Draft, s: State, store: Store, qc: QC)
    requires Sane(base, s) && OrderlyUpdate(s, store, qc)
    ensures Sane(base, Update(s, store, qc))
  {
    UpdateStep(base, s, store, qc);
    if Commits(s, store, qc) {
      UpdateKeepsNoneTwice(s, store, qc);
    } else {
      UpdateIdle(s, store, qc);
      NoneTwiceFrame(s, Update(s, store, qc));
    }
  }

  lemma SaneFrame(base: Draft, s: State, u: State)
    requires Sane(base, s) && SameMap(s, u)
    ensures Sane(base, u)
  {
    HistoryFrame(base, s, u);
    SettledFrame(s, u);
    NoneTwiceFrame(s, u);
  }

  lemma AcceptKeepsSane(base: Draft, s: State, m: Proposal)
    requires Sane(base, s) && Honest(s, Propose(m)) && Accept(s, m).Some?
    ensures Sane(base, AddIfAbsent(s, Accept(s, m).value))
  {
    AcceptKeepsSettled(s, m);
    AcceptKeepsHistory(base, s, m);
    AcceptKeepsNoneTwiceIff(s, m);
  }

  lemma ProposalKeepsSane(base: Draft, s: State, m: Proposal)
    requires Sane(base, s) && Honest(s, Propose(m))
    ensures Sane(base, OnReceiveProposal(s, m))
  {
    if !s.halted && Accept(s, m).Some? {
      AcceptKeepsSane(base, s, m);
      if VotesFor(s, m) {
        var s1 := AddIfAbsent(s, Accept(s, m).value);
        UpdateKeepsSane(base, s1, m.store, m.qc);
        ProposalMap(s, m);
        SaneFrame(base, Update(s1, m.store, m.qc), OnReceiveProposal(s, m));
      }
    }
  }

  lemma VoteKeepsSane(base: Draft, s: State, v: VoteMsg)
    requires Sane(base, s) && Orderly(s, Vote(v))
    ensures Sane(base, OnReceiveVote(s, v))
  {
    VoteMap(s, v);
    if !s.halted && VoteRaises(s, v) {
      var s1 := Raised(s, v);
      SaneFrame(base, s, s1);
      UpdateKeepsSane(base, s1, v.store, v.formed.value);
      SaneFrame(base, Update(s1, v.store, v.formed.value), OnReceiveVote(s, v));
    } else {
      SaneFrame(base, s, OnReceiveVote(s, v));
    }
  }

  lemma FormedKeepsSane(base: Draft, s: State, t: TimeoutMsg)
    requires Sane(base, s) && Orderly(s, Timeout(t)) && !s.halted && t.toProposer
    ensures Sane(base, AfterFormed(s, t))
  {
    FormedMap(s, t);
    if t.formed.Some? {
      var s1 := FirstRaise(s, t);
      SaneFrame(base, s, s1);
      if !s1.halted {
        UpdateKeepsSane(base, s1, t.store, t.formed.value);
      } else {
        SaneFrame(base, s, AfterFormed(s, t));
      }
    }
  }

  lemma TimeoutKeepsSane(base: Draft, s: State, t: TimeoutMsg)
    requires Sane(base, s) && Orderly(s, Timeout(t))
    ensures Sane(base, OnReceiveTimeout(s, t))
  {
    TimeoutMap(s, t);
    if !s.halted && t.toProposer {
      FormedKeepsSane(base, s, t);
      SaneFrame(base, AfterFormed(s, t), OnReceiveTimeout(s, t));
    }
  }

  /** The parent of a built block is in the map, or was rebuilt just now and has no parent. */
  lemma BeatParent(s: State, epoch: nat, b: BeatMsg)
    requires Coherent(s) && BeatDraft(s, epoch, b).Some?
    ensures var d := BeatDraft(s, epoch, b).value;
      var p := d.parent;
      d.handle == s.nextHandle + 1 && !d.fromStore && p.Some? && d.block.Block? && d.block.parent == p.value.block &&
      ((p.value.handle == s.nextHandle && p.value.parent.None?) ||
       (p.value.block in s.drafts && s.drafts[p.value.block] == p.value))
  {
  }

  lemma BuiltIsNew(s: State, d: Draft, store: Store)
    requires Coherent(s) && Settled(s) && Distinct(s) && NoneTwice(s) && StoreHolds(s, store)
    requires d.parent.Some? && d.block.Block? && d.block.parent == d.parent.value.block && Under(d, s.lastCommitted)
    requires var p := d.parent.value;
      (p.handle == s.nextHandle && p.parent.None?) || (p.block in s.drafts && s.drafts[p.block] == p)
    requires FreshTxs(s, store, d.block.parent, d.block.txs)
    ensures NoRepeat(ChainTxs(d.block))
  {
    NewOnTop(s, store, d.parent.value, d.block.txs);
  }

  lemma BeatKeepsSane(base: Draft, s: State, epoch: nat, b: BeatMsg)
    requires Sane(base, s) && Honest(s, Beat(epoch, b))
    ensures Sane(base, OnBeat(s, epoch, b))
  {
    var u := OnBeat(s, epoch, b);
    BeatStep(base, s, epoch, b);
    if BeatDraft(s, epoch, b).Some? {
      var d := BeatDraft(s, epoch, b).value;
      BeatParent(s, epoch, b);
      AddKeepsDistinct(s, d);
      var s1 := AddIfAbsent(s, d);
      assert NoneTwice(s1) by {
        if Under(d, s.lastCommitted) {
          BuiltIsNew(s, d, b.store);
        }
      }
      NoneTwiceFrame(s1, u);
    } else {
      NoneTwiceFrame(s, u);
    }
  }

  lemma StepKeepsSane(base: Draft, s: State, e: Event)
    requires Sane(base, s) && Honest(s, e)
    ensures Sane(base, Step(s, e))
  {
    match e
    case Propose(m) => ProposalKeepsSane(base, s, m);
    case Vote(v) => VoteKeepsSane(base, s, v);
    case Timeout(t) => TimeoutKeepsSane(base, s, t);
    case Beat(epoch, b) => BeatKeepsSane(base, s, epoch, b);
    case RoundTimeout(_, _) => SaneFrame(base, s, Step(s, e));
  }

  ghost predicate HonestRun(s: State, es: seq<Event>)
    decreases |es|
  {
    es == [] || (Honest(s, es[0]) && HonestRun(Step(s, es[0]), es[1..]))
  }

  lemma {:induction false} RunKeepsSane(base: Draft, s: State, es: seq<Event>)
    requires Sane(base, s) && HonestRun(s, es)
    ensures Sane(base, Run(s, es))
    decreases |es|
  {
    if es != [] {
      StepKeepsSane(base, s, es[0]);
      RunKeepsSane(base, Step(s, es[0]), es[1..]);
    }
  }

  /** No draft of the map lies under a draft allocated later. */
  lemma {:induction false} NothingUnderNew(s: State, d: Draft, node: Draft)
    requires Coherent(s) && Settled(s) && Distinct(s) && d.block in s.drafts && s.drafts[d.block] == d
    requires node.handle == s.nextHandle && node.Height() >= s.lastCommitted.Height()
    ensures !Under(d, node)
  {
    if Under(d, node) {
      var p := d.parent.value;
      if p != node {
        UnderExtends(p, node);
        assert ParentKept(s, d);
        NothingUnderNew(s, p, node);
      }
    }
  }

  /** A regulation, too, keeps all invariants: onto the last committed draft again, or
      onto a rebuilt one whose chain repeats nothing. */
  lemma RegulateKeepsSane(base: Draft, s: State, store: Store, bestQC: QC, round: nat, inCommittee: bool)
    requires Sane(base, s)
    requires var node := GetByEscortQC(s, store, bestQC);
      node.Some? && Committed(s, node.value) && node.value.Height() >= s.lastCommitted.Height() &&
      (node.value == s.lastCommitted || (node.value.handle == s.nextHandle && NoRepeat(ChainTxs(node.value.block))))
    ensures var u := Regulate(s, store, bestQC, round, inCommittee); Sane(u.lastCommitted, u)
  {
    RegulateSettles(s, store, bestQC, round, inCommittee);
    var node := GetByEscortQC(s, store, bestQC).value;
    if node.handle == s.nextHandle {
      forall id | id in s.drafts
        ensures !Under(s.drafts[id], node)
      {
        NothingUnderNew(s, s.drafts[id], node);
      }
    }
  }

  /** A block voted for repeats no transaction of its chain exactly when it was executed or does
      not slip through. */
  lemma VotedIsNewIff(base: Draft, s: State, m: Proposal)
    requires Sane(base, s) && VerifiedTxs(m) && StoreHolds(s, m.store) && VotesFor(s, m)
    ensures NoRepeat(ChainTxs(m.block)) <==> m.execution == Executed || !Slips(s, m)
  {
    var d := Accept(s, m).value;
    ExtendedIsUnder(d, s.lastCommitted, MAX_HOPS);
    assert d.handle > s.lastCommitted.handle;
    AcceptedParent(s, m);
    RepeatsIff(s, m);
    if m.execution == Executed {
      AcceptedIsNew(s, m);
    }
  }

  /** Through every honest run of all five kinds of message, with their commits and prunings: on
      the committed chain and on every draft on top of it no transaction occurs twice, and on a
      block voted for next exactly when it was executed or does not slip through. */
  lemma NoDoubleInclusion(base: Draft, s0: State, es: seq<Event>, m: Proposal)
    requires Sane(base, s0) && HonestRun(s0, es)
    ensures var s := Run(s0, es);
      NoRepeat(ChainTxs(s.lastCommitted.block)) && NoneTwice(s) &&
      (VerifiedTxs(m) && StoreHolds(s, m.store) && VotesFor(s, m) ==>
        (NoRepeat(ChainTxs(m.block)) <==> m.execution == Executed || !Slips(s, m)))
  {
    RunKeepsSane(base, s0, es);
    var s := Run(s0, es);
    if VerifiedTxs(m) && StoreHolds(s, m.store) && VotesFor(s, m) {
      VotedIsNewIff(base, s, m);
    }
  }

  /** Ordinary proposals checked against a store that holds the committed chain. */
  ghost predicate PlainRun(s: State, es: seq<Event>)
    decreases |es|
  {
    es == [] ||
    (es[0].Propose? && Plain(es[0].proposal) && VerifiedTxs(es[0].proposal) && StoreHolds(s, es[0].proposal.store) &&
     PlainRun(Step(s, es[0]), es[1..]))
  }

  /** They are an honest run and need no further condition. */
  lemma {:induction false} PlainRunIsHonest(base: Draft, s: State, es: seq<Event>)
    requires Sane(base, s) && AllPrunable(s) && PlainRun(s, es)
    ensures HonestRun(s, es)
    decreases |es|
  {
    if es != [] {
      PlainIsOrderly(s, es[0].proposal);
      StepKeepsSane(base, s, es[0]);
      PlainKeepsPrunable(s, es[0].proposal);
      PlainRunIsHonest(base, Step(s, es[0]), es[1..]);
    }
  }

  /** A node that starts with an empty map on a chain without repetitions is such a start. */
  lemma RegulatedIsSane(best: Block, carried: QC, bestQC: QC, round: nat)
    requires NoRepeat(ChainTxs(best))
    ensures var s := Regulated(best, carried, bestQC, round); Sane(s.lastCommitted, s)
  {
  }
}
