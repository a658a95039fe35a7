/** Building a block and checking it: the packer adopts transactions one by one, the
    validator replays them; both run over the same abstract executor. */
module Packing {
  import opened Blocks
  import opened GasLimit

  const BLOCK_INTERVAL: nat := 10
  const KBLOCK_EPOCH: nat := 14603

  // ---------- the world both sides see ----------

  datatype Signer = Unavailable | Zero | Address(a: nat)

  datatype Tx = Tx(
    id: TxId, chainTag: nat, blockRef: nat, expiration: nat, gas: uint64,
    dependsOn: Option<TxId>, signer: Signer, ethValid: bool)
  {
    predicate IsExpired(blockNum: nat) {
      blockNum > blockRef + expiration
    }
  }

  datatype Receipt = Receipt(gasUsed: uint64, reverted: bool, outputs: nat)

  datatype Context = Context(
    beneficiary: nat, signer: nat, number: nat, time: uint64, gasLimit: uint64, totalScore: uint64)

  /** Execution leaves some state behind even when it fails. States are identified with
      their roots. */
  datatype Execution = Execution(after: nat, receipt: Option<Receipt>)

  datatype Lookup = NotFound | Found(reverted: bool) | LookupError

  /** The chain tag, the transactions found on the chain of the parent block, and the
      executor. */
  datatype World = World(tag: nat, meta: TxId -> Lookup, exec: (Context, nat, Tx) -> Execution)

  function FindTx(w: World, processed: map<TxId, bool>, id: TxId): Lookup {
    if id in processed then Found(processed[id]) else w.meta(id)
  }

  /** 64-bit addition. */
  function Add64(a: uint64, b: uint64): uint64 {
    (a + b) % TWO64
  }

  // ---------- the packer ----------

  datatype Flow = Flow(
    ctx: Context, processed: map<TxId, bool>, gasUsed: uint64, txs: seq<Tx>, receipts: seq<Receipt>, state: nat)

  datatype AdoptError = BadTx | NotAdoptableNow | GasLimitReached | KnownTx | NeverAdoptable | LookupFailed | EthInvalid

  /** Whether a transaction that no longer fits should make the packer look for a smaller one. */
  predicate RoomLeft(f: Flow) {
    f.ctx.gasLimit > 0 && f.gasUsed as real / f.ctx.gasLimit as real < 0.9
  }

  /** The checks before execution; `None` when all pass. */
  function Refuse(w: World, f: Flow, tx: Tx): Option<AdoptError> {
    if tx.chainTag != w.tag then Some(BadTx)
    else if f.ctx.number < tx.blockRef then Some(NotAdoptableNow)
    else if tx.IsExpired(f.ctx.number) then Some(BadTx)
    else if Add64(f.gasUsed, tx.gas) > f.ctx.gasLimit then Some(if RoomLeft(f) then NotAdoptableNow else GasLimitReached)
    else if !tx.ethValid then Some(EthInvalid)
    else match FindTx(w, f.processed, tx.id)
      case LookupError => Some(LookupFailed)
      case Found(_) => Some(KnownTx)
      case NotFound =>
        if tx.dependsOn.None? then None
        else match FindTx(w, f.processed, tx.dependsOn.value)
          case LookupError => Some(LookupFailed)
          case NotFound => Some(NotAdoptableNow)
          case Found(reverted) => if reverted then Some(NeverAdoptable) else None
  }

  /** Try to add a transaction; a failed execution is rolled back. */
  function Adopt(w: World, f: Flow, tx: Tx): (Flow, Option<AdoptError>) {
    var refused := Refuse(w, f, tx);
    if refused.Some? then (f, refused)
    else
      var run := w.exec(f.ctx, f.state, tx);
      match run.receipt
      case None => (f, Some(BadTx))
      case Some(r) =>
        (Flow(f.ctx, f.processed[tx.id := r.reverted], Add64(f.gasUsed, r.gasUsed),
              f.txs + [tx], f.receipts + [r], run.after), None)
  }

  function AdoptAll(w: World, f: Flow, offers: seq<Tx>): Flow
    decreases |offers|
  {
    if offers == [] then f else AdoptAll(w, Adopt(w, f, offers[0]).0, offers[1..])
  }

  /** The packer's own gas limit choice. */
  function PackerGasLimit(target: uint64, parent: uint64): uint64 {
    if target != 0 then Qualify(target, parent) else parent
  }

  datatype Header = Header(
    number: nat, timestamp: uint64, gasLimit: uint64, gasUsed: uint64, totalScore: uint64, beneficiary: nat,
    kind: Kind, lastKBlockHeight: nat, txsRoot: seq<Tx>, stateRoot: nat, receiptsRoot: seq<Receipt>, signer: Option<nat>)

  datatype PackedBlock = PackedBlock(header: Header, txs: seq<Tx>, magic: nat)

  const MAGIC: nat := 0x76010000

  /** The context for a block on `parent`. */
  function Mock(parent: Header, time: uint64, gasLimit: uint64, beneficiary: nat, nodeMaster: nat): Flow {
    Flow(Context(beneficiary, nodeMaster, parent.number + 1, time, gasLimit, Add64(parent.totalScore, 1)),
         map[], 0, [], [], parent.stateRoot)
  }

  /** Seal the flow into a signed block; stop-committee blocks carry no transactions. Roots
      are injective, so they are represented by what they commit to. */
  function Pack(f: Flow, kind: Kind, lastKBlock: nat): PackedBlock {
    var txs := if kind == SBlock then [] else f.txs;
    PackedBlock(
      Header(f.ctx.number, f.ctx.time, f.ctx.gasLimit, f.gasUsed, f.ctx.totalScore, f.ctx.beneficiary,
             kind, lastKBlock, txs, f.state, f.receipts, Some(f.ctx.signer)),
      txs, MAGIC)
  }

  // ---------- the validator ----------

  predicate ValidHeader(h: Header, parent: Header, now: uint64, force: bool, epoch: nat, localLastK: nat) {
    h.timestamp > parent.timestamp &&
    h.timestamp <= Add64(now, BLOCK_INTERVAL) &&
    IsValid(h.gasLimit, parent.gasLimit) &&
    h.gasUsed <= h.gasLimit &&
    h.totalScore > parent.totalScore &&
    (epoch != KBLOCK_EPOCH ==> h.lastKBlockHeight >= parent.lastKBlockHeight) &&
    (force ==> h.lastKBlockHeight == localLastK)
  }

  /** The per-transaction checks of a block that is not a KBlock. */
  predicate ValidTx(w: World, number: nat, tx: Tx, force: bool) {
    tx.signer.Address? && (force ==> tx.ethValid) &&
    tx.chainTag == w.tag && number >= tx.blockRef && !tx.IsExpired(number)
  }

  predicate ValidBody(w: World, b: PackedBlock, force: bool) {
    b.header.txsRoot == b.txs && b.magic == MAGIC &&
    forall k :: 0 <= k < |b.txs| ==> ValidTx(w, b.header.number, b.txs[k], force)
  }

  /** What the validator has accumulated after some transactions. */
  datatype Replay = Replay(state: nat, receipts: seq<Receipt>, gas: uint64, processed: map<TxId, bool>)

  function ReplayOne(w: World, ctx: Context, kind: Kind, acc: Replay, tx: Tx): Option<Replay> {
    if tx.signer.Unavailable? || (tx.signer.Zero? && kind != KBlock) then None
    else if FindTx(w, acc.processed, tx.id) != NotFound then None
    else if tx.dependsOn.Some? && FindTx(w, acc.processed, tx.dependsOn.value) != Found(false) then None
    else
      var run := w.exec(ctx, acc.state, tx);
      match run.receipt
      case None => None
      case Some(r) =>
        Some(Replay(run.after, acc.receipts + [r], Add64(acc.gas, r.gasUsed), acc.processed[tx.id := r.reverted]))
  }

  function ReplayAll(w: World, ctx: Context, kind: Kind, state: nat, txs: seq<Tx>): Option<Replay> {
    if txs == [] then Some(Replay(state, [], 0, map[]))
    else match ReplayAll(w, ctx, kind, state, txs[..|txs| - 1])
      case None => None
      case Some(acc) => ReplayOne(w, ctx, kind, acc, txs[|txs| - 1])
  }

  function BlockContext(h: Header): Context
    requires h.signer.Some?
  {
    Context(h.beneficiary, h.signer.value, h.number, h.timestamp, h.gasLimit, h.totalScore)
  }

  /** `Some` final state and receipts when the block's claims match the replay. */
  function VerifyBlock(w: World, b: PackedBlock, parentState: nat): Option<(nat, seq<Receipt>)>
    requires b.header.signer.Some?
  {
    match ReplayAll(w, BlockContext(b.header), b.header.kind, parentState, b.txs)
    case None => None
    case Some(acc) =>
      if b.header.gasUsed == acc.gas && b.header.receiptsRoot == acc.receipts && b.header.stateRoot == acc.state
      then Some((acc.state, acc.receipts)) else None
  }

  /** Validation of a block that is not a KBlock on its parent. */
  function Validate(w: World, b: PackedBlock, parent: Header, now: uint64, force: bool, epoch: nat, localLastK: nat)
    : Option<(nat, seq<Receipt>)>
  {
    if !ValidHeader(b.header, parent, now, force, epoch, localLastK) then None
    else if b.header.signer.None? then None
    else if !ValidBody(w, b, force) then None
    else VerifyBlock(w, b, parent.stateRoot)
  }

  // ---------- what the checks amount to ----------

  /** A header is in order on its parent: later than the parent and at most ten seconds ahead of
      now, a gas limit of at least a million that differs by at most one 1024th, gas used within it,
      a higher score, a last KBlock that does not go back (with one exempt epoch), and the local one
      when that is enforced. */
  predicate InOrder(h: Header, parent: Header, now: uint64, force: bool, epoch: nat, localLastK: nat) {
    parent.timestamp < h.timestamp <= (now + 10) % 0x1_0000_0000_0000_0000 &&
    h.gasLimit >= 1_000_000 &&
    1024 * (h.gasLimit - parent.gasLimit) <= parent.gasLimit && 1024 * (parent.gasLimit - h.gasLimit) <= parent.gasLimit &&
    h.gasUsed <= h.gasLimit && parent.totalScore < h.totalScore &&
    (epoch == 14603 || parent.lastKBlockHeight <= h.lastKBlockHeight) &&
    (force ==> h.lastKBlockHeight == localLastK)
  }

  lemma DividesIff(diff: nat, parent: nat)
    ensures diff <= parent / 1024 <==> 1024 * diff <= parent
  {
    assert parent == 1024 * (parent / 1024) + parent % 1024;
  }

  lemma HeaderIff(h: Header, parent: Header, now: uint64, force: bool, epoch: nat, localLastK: nat)
    ensures ValidHeader(h, parent, now, force, epoch, localLastK) <==> InOrder(h, parent, now, force, epoch, localLastK)
  {
    DividesIff(if h.gasLimit > parent.gasLimit then h.gasLimit - parent.gasLimit else parent.gasLimit - h.gasLimit,
               parent.gasLimit);
  }

  /** Consecutive headers were validated, each at its own time and in its own epoch. */
  predicate ValidatedChain(hs: seq<Header>, nows: seq<uint64>, epochs: seq<nat>, locals: seq<nat>, force: bool) {
    |hs| == |nows| == |epochs| == |locals| &&
    forall k :: 0 < k < |hs| ==> ValidHeader(hs[k], hs[k - 1], nows[k], force, epochs[k], locals[k])
  }

  lemma ValidatedAt(hs: seq<Header>, nows: seq<uint64>, epochs: seq<nat>, locals: seq<nat>, force: bool, k: nat)
    requires ValidatedChain(hs, nows, epochs, locals, force) && 0 < k < |hs|
    ensures InOrder(hs[k], hs[k - 1], nows[k], force, epochs[k], locals[k])
  {
    HeaderIff(hs[k], hs[k - 1], nows[k], force, epochs[k], locals[k]);
  }

  /** Along validated blocks timestamps and scores rise by at least one per block, and outside the
      exempt epoch the last KBlock never goes back. */
  lemma {:induction false} ValidatedRises(hs: seq<Header>, nows: seq<uint64>, epochs: seq<nat>, locals: seq<nat>, force: bool,
                                          i: nat, j: nat)
    requires ValidatedChain(hs, nows, epochs, locals, force) && i <= j < |hs|
    ensures hs[j].timestamp >= hs[i].timestamp + (j - i) && hs[j].totalScore >= hs[i].totalScore + (j - i)
    ensures 14603 !in epochs ==> hs[j].lastKBlockHeight >= hs[i].lastKBlockHeight
    decreases j
  {
    if i < j {
      ValidatedRises(hs, nows, epochs, locals, force, i, j - 1);
      ValidatedAt(hs, nows, epochs, locals, force, j);
      assert epochs[j] in epochs;
    }
  }

  /** None of them used more gas than its limit, or was more than ten seconds ahead when validated. */
  lemma ValidatedBounds(hs: seq<Header>, nows: seq<uint64>, epochs: seq<nat>, locals: seq<nat>, force: bool, k: nat)
    requires ValidatedChain(hs, nows, epochs, locals, force) && 0 < k < |hs|
    ensures hs[k].gasUsed <= hs[k].gasLimit && hs[k].gasLimit >= 1_000_000 && hs[k].timestamp as int <= nows[k] as int + 10
    ensures force ==> hs[k].lastKBlockHeight == locals[k]
  {
    ValidatedAt(hs, nows, epochs, locals, force, k);
  }

  /** The block number lies in the transaction's window. */
  predicate InWindow(tx: Tx, number: nat) {
    tx.blockRef <= number <= tx.blockRef + tx.expiration
  }

  /** Neither processed in this block nor found on the parent's chain. */
  predicate IsNew(w: World, processed: map<TxId, bool>, id: TxId) {
    id !in processed && w.meta(id) == NotFound
  }

  /** Processed in this block, or else found on the parent's chain, and not reverted. */
  predicate IsMet(w: World, processed: map<TxId, bool>, id: TxId) {
    if id in processed then !processed[id] else w.meta(id) == Found(false)
  }

  /** The gas a transaction asks for still fits, in 64 bits. */
  predicate GasFits(f: Flow, tx: Tx) {
    (f.gasUsed + tx.gas) % 0x1_0000_0000_0000_0000 <= f.ctx.gasLimit
  }

  /** The packer takes a transaction exactly when it is for this chain, in its window, fits, is well
      formed, is new, has its dependency met, and executes. */
  lemma AdoptsIff(w: World, f: Flow, tx: Tx)
    ensures Adopt(w, f, tx).1.None? <==>
      tx.chainTag == w.tag && InWindow(tx, f.ctx.number) && GasFits(f, tx) && tx.ethValid &&
      IsNew(w, f.processed, tx.id) && (tx.dependsOn.Some? ==> IsMet(w, f.processed, tx.dependsOn.value)) &&
      w.exec(f.ctx, f.state, tx).receipt.Some?
  {
  }

  lemma ProductSign(x: real, y: real)
    requires y > 0.0
    ensures x * y > 0.0 <==> x > 0.0
  {
  }

  lemma QuotientLess(a: real, b: real, c: real)
    requires b > 0.0
    ensures a / b < c <==> a < c * b
  {
    var q := a / b;
    assert a == q * b;
    ProductSign(c - q, b);
    assert (c - q) * b == c * b - q * b;
  }

  lemma RoomIff(f: Flow)
    ensures RoomLeft(f) <==> 10 * f.gasUsed < 9 * f.ctx.gasLimit
  {
    if f.ctx.gasLimit > 0 {
      var used, limit := f.gasUsed as real, f.ctx.gasLimit as real;
      QuotientLess(used, limit, 0.9);
      assert used < 0.9 * limit <==> 10.0 * used < 9.0 * limit;
      assert 10.0 * used == (10 * f.gasUsed) as real && 9.0 * limit == (9 * f.ctx.gasLimit) as real;
    }
  }

  /** It calls the block full exactly when a transaction of this chain in its window does not fit
      and nine tenths of the limit are used, and a transaction out of turn exactly when its window
      lies ahead, it does not fit but a tenth is left, or its dependency is not known yet. */
  lemma RefusalIff(w: World, f: Flow, tx: Tx)
    ensures Adopt(w, f, tx).1 == Some(GasLimitReached) <==>
      tx.chainTag == w.tag && InWindow(tx, f.ctx.number) && !GasFits(f, tx) && 10 * f.gasUsed >= 9 * f.ctx.gasLimit
    ensures Adopt(w, f, tx).1 == Some(NotAdoptableNow) <==>
      tx.chainTag == w.tag &&
      (f.ctx.number < tx.blockRef ||
       (InWindow(tx, f.ctx.number) && !GasFits(f, tx) && 10 * f.gasUsed < 9 * f.ctx.gasLimit) ||
       (InWindow(tx, f.ctx.number) && GasFits(f, tx) && tx.ethValid && IsNew(w, f.processed, tx.id) &&
        tx.dependsOn.Some? && tx.dependsOn.value !in f.processed && w.meta(tx.dependsOn.value) == NotFound))
  {
    RoomIff(f);
  }

  /** The validator replays a transaction exactly when its sender is known, or zero in a KBlock, it
      is new, has its dependency met, and executes. */
  lemma ReplaysIff(w: World, ctx: Context, kind: Kind, acc: Replay, tx: Tx)
    ensures ReplayOne(w, ctx, kind, acc, tx).Some? <==>
      (tx.signer.Address? || (tx.signer.Zero? && kind == KBlock)) && IsNew(w, acc.processed, tx.id) &&
      (tx.dependsOn.Some? ==> IsMet(w, acc.processed, tx.dependsOn.value)) && w.exec(ctx, acc.state, tx).receipt.Some?
  {
  }

  /** A block is validated exactly when its header is in order and signed, its body is the one it
      commits to, with the magic number and transactions of known senders for this chain, in their
      windows and well formed when that is enforced, and its replay gives the gas, receipts and
      state it claims. */
  lemma ValidatesIff(w: World, b: PackedBlock, parent: Header, now: uint64, force: bool, epoch: nat, localLastK: nat)
    ensures Validate(w, b, parent, now, force, epoch, localLastK).Some? <==>
      InOrder(b.header, parent, now, force, epoch, localLastK) && b.header.signer.Some? &&
      b.header.txsRoot == b.txs && b.magic == 0x76010000 &&
      (forall k :: 0 <= k < |b.txs| ==>
        b.txs[k].signer.Address? && b.txs[k].chainTag == w.tag && InWindow(b.txs[k], b.header.number) &&
        (force ==> b.txs[k].ethValid)) &&
      var r := ReplayAll(w, BlockContext(b.header), b.header.kind, parent.stateRoot, b.txs);
      r.Some? && r.value.gas == b.header.gasUsed && r.value.receipts == b.header.receiptsRoot &&
      r.value.state == b.header.stateRoot
    ensures Validate(w, b, parent, now, force, epoch, localLastK).Some? ==>
      Validate(w, b, parent, now, force, epoch, localLastK) == Some((b.header.stateRoot, b.header.receiptsRoot))
  {
    HeaderIff(b.header, parent, now, force, epoch, localLastK);
    assert ValidBody(w, b, force) <==>
      (b.header.txsRoot == b.txs && b.magic == MAGIC &&
       forall k :: 0 <= k < |b.txs| ==> ValidTx(w, b.header.number, b.txs[k], force));
  }

  // ---------- agreement of the two sides ----------

  /** What the validator must have accumulated when the flow has got this far. */
  function Seen(f: Flow): Replay {
    Replay(f.state, f.receipts, f.gasUsed, f.processed)
  }

  predicate KnownSenders(txs: seq<Tx>) {
    forall k :: 0 <= k < |txs| ==> txs[k].signer.Address?
  }

  /** The flow is what the validator will see. */
  predicate Replayable(w: World, start: nat, f: Flow) {
    KnownSenders(f.txs) ==>
      (ReplayAll(w, f.ctx, MBlock, start, f.txs) == Some(Seen(f)) &&
       forall k :: 0 <= k < |f.txs| ==> ValidTx(w, f.ctx.number, f.txs[k], true))
  }

  lemma ReplaySnoc(w: World, ctx: Context, kind: Kind, start: nat, txs: seq<Tx>, tx: Tx)
    ensures ReplayAll(w, ctx, kind, start, txs + [tx]) ==
      (match ReplayAll(w, ctx, kind, start, txs) case None => None case Some(acc) => ReplayOne(w, ctx, kind, acc, tx))
  {
    assert (txs + [tx])[..|txs|] == txs;
  }

  /** The packer takes a transaction of a known sender exactly when the validator's body checks
      and its replay step pass and the declared gas still fits; then both go to the same place. */
  lemma AdoptIff(w: World, f: Flow, tx: Tx)
    requires tx.signer.Address?
    ensures Adopt(w, f, tx).1.None? <==>
      (ValidTx(w, f.ctx.number, tx, true) && Add64(f.gasUsed, tx.gas) <= f.ctx.gasLimit &&
       ReplayOne(w, f.ctx, MBlock, Seen(f), tx).Some?)
    ensures Adopt(w, f, tx).1.None? ==>
      ReplayOne(w, f.ctx, MBlock, Seen(f), tx) == Some(Seen(Adopt(w, f, tx).0))
    ensures Adopt(w, f, tx).1.Some? ==> Adopt(w, f, tx).0 == f
  {
  }

  lemma AdoptShape(w: World, f: Flow, tx: Tx)
    ensures Adopt(w, f, tx).0.ctx == f.ctx
    ensures Adopt(w, f, tx).1.Some? ==> Adopt(w, f, tx).0 == f
    ensures Adopt(w, f, tx).1.None? ==>
      w.exec(f.ctx, f.state, tx).receipt.Some? && Adopt(w, f, tx).0.txs == f.txs + [tx] &&
      Add64(f.gasUsed, tx.gas) <= f.ctx.gasLimit &&
      Adopt(w, f, tx).0.gasUsed == Add64(f.gasUsed, w.exec(f.ctx, f.state, tx).receipt.value.gasUsed)
  {
  }

  /** Adopting, successfully or not, keeps the flow replayable. */
  lemma AdoptStaysReplayable(w: World, start: nat, f: Flow, tx: Tx)
    requires Replayable(w, start, f)
    ensures Replayable(w, start, Adopt(w, f, tx).0) && Adopt(w, f, tx).0.ctx == f.ctx
  {
    AdoptShape(w, f, tx);
    var (g, refused) := Adopt(w, f, tx);
    if refused.None? && KnownSenders(g.txs) {
      assert g.txs[|f.txs|] == tx;
      assert KnownSenders(f.txs) by {
        assert forall k :: 0 <= k < |f.txs| ==> f.txs[k] == g.txs[k];
      }
      AdoptIff(w, f, tx);
      ReplaySnoc(w, f.ctx, MBlock, start, f.txs, tx);
    }
  }

  lemma {:induction false} AdoptAllStaysReplayable(w: World, start: nat, f: Flow, offers: seq<Tx>)
    requires Replayable(w, start, f)
    ensures Replayable(w, start, AdoptAll(w, f, offers)) && AdoptAll(w, f, offers).ctx == f.ctx
    decreases |offers|
  {
    if offers != [] {
      AdoptStaysReplayable(w, start, f, offers[0]);
      AdoptAllStaysReplayable(w, start, Adopt(w, f, offers[0]).0, offers[1..]);
    }
  }

  lemma {:induction false} UnknownSenderStops(w: World, ctx: Context, start: nat, txs: seq<Tx>)
    requires ReplayAll(w, ctx, MBlock, start, txs).Some?
    ensures KnownSenders(txs)
  {
    if txs != [] {
      UnknownSenderStops(w, ctx, start, txs[..|txs| - 1]);
    }
  }

  /** Whatever is offered, and however many offers fail: the packed block is accepted on its
      parent, with the packer's own state and receipts, exactly when its header passes and every
      adopted transaction has a known sender. Replaying never disagrees. */
  lemma PackedBlockValidatesIff(w: World, parent: Header, time: uint64, gasLimit: uint64, beneficiary: nat, nodeMaster: nat,
                                offers: seq<Tx>, now: uint64, epoch: nat, lastK: nat, localLastK: nat)
    ensures var f := AdoptAll(w, Mock(parent, time, gasLimit, beneficiary, nodeMaster), offers);
      var b := Pack(f, MBlock, lastK);
      var fine := InOrder(b.header, parent, now, true, epoch, localLastK) && KnownSenders(f.txs);
      Validate(w, b, parent, now, true, epoch, localLastK) == if fine then Some((f.state, f.receipts)) else None
  {
    var f0 := Mock(parent, time, gasLimit, beneficiary, nodeMaster);
    assert ReplayAll(w, f0.ctx, MBlock, parent.stateRoot, []) == Some(Replay(parent.stateRoot, [], 0, map[]));
    AdoptAllStaysReplayable(w, parent.stateRoot, f0, offers);
    var f := AdoptAll(w, f0, offers);
    var b := Pack(f, MBlock, lastK);
    HeaderIff(b.header, parent, now, true, epoch, localLastK);
    assert BlockContext(b.header) == f.ctx;
    if ValidBody(w, b, true) && VerifyBlock(w, b, parent.stateRoot).Some? {
      UnknownSenderStops(w, f.ctx, parent.stateRoot, f.txs);
    }
  }

  // ---------- when the header passes ----------

  /** No transaction uses more gas than it asked for. */
  ghost predicate Frugal(w: World) {
    forall ctx, s, tx :: w.exec(ctx, s, tx).receipt.Some? ==> w.exec(ctx, s, tx).receipt.value.gasUsed <= tx.gas
  }

  lemma {:induction false} AdoptAllWithinLimit(w: World, f: Flow, offers: seq<Tx>)
    requires Frugal(w) && f.gasUsed <= f.ctx.gasLimit
    requires forall k :: 0 <= k < |offers| ==> f.ctx.gasLimit + offers[k].gas < TWO64
    ensures AdoptAll(w, f, offers).gasUsed <= f.ctx.gasLimit
    decreases |offers|
  {
    if offers != [] {
      AdoptShape(w, f, offers[0]);
      assert f.ctx.gasLimit + offers[0].gas < TWO64;
      AdoptAllWithinLimit(w, Adopt(w, f, offers[0]).0, offers[1..]);
    }
  }

  lemma {:induction false} AdoptedAreOffers(w: World, f: Flow, offers: seq<Tx>)
    ensures f.txs <= AdoptAll(w, f, offers).txs
    ensures forall k :: |f.txs| <= k < |AdoptAll(w, f, offers).txs| ==> AdoptAll(w, f, offers).txs[k] in offers
    decreases |offers|
  {
    if offers != [] {
      AdoptShape(w, f, offers[0]);
      AdoptedAreOffers(w, Adopt(w, f, offers[0]).0, offers[1..]);
    }
  }

  /** What a block packed on `parent` says of itself: the next number, the packer's time, limit,
      beneficiary and signature, one more score, the adopted transactions, none in a block that stops
      the committee, and the gas, receipts and state they left. */
  lemma PackedFields(w: World, parent: Header, time: uint64, gasLimit: uint64, beneficiary: nat, nodeMaster: nat,
                     offers: seq<Tx>, kind: Kind, lastK: nat)
    ensures var f := AdoptAll(w, Mock(parent, time, gasLimit, beneficiary, nodeMaster), offers);
      var b := Pack(f, kind, lastK);
      b.header.number == parent.number + 1 && b.header.timestamp == time && b.header.gasLimit == gasLimit &&
      b.header.totalScore == (parent.totalScore + 1) % 0x1_0000_0000_0000_0000 && b.header.beneficiary == beneficiary &&
      b.header.signer == Some(nodeMaster) && b.header.kind == kind && b.header.lastKBlockHeight == lastK &&
      b.header.gasUsed == f.gasUsed && b.header.receiptsRoot == f.receipts && b.header.stateRoot == f.state &&
      b.txs == b.header.txsRoot && b.txs == (if kind == SBlock then [] else f.txs) &&
      f.ctx == Context(beneficiary, nodeMaster, parent.number + 1, time, gasLimit, b.header.totalScore)
  {
    var f0 := Mock(parent, time, gasLimit, beneficiary, nodeMaster);
    assert Replayable(w, parent.stateRoot, f0);
    AdoptAllStaysReplayable(w, parent.stateRoot, f0, offers);
  }

  /** An adopted transaction leaves its receipt, its gas, its outcome and the state after it. */
  lemma AdoptedEffect(w: World, f: Flow, tx: Tx)
    requires Adopt(w, f, tx).1.None?
    ensures var g, run := Adopt(w, f, tx).0, w.exec(f.ctx, f.state, tx);
      g.state == run.after && g.receipts == f.receipts + [run.receipt.value] && g.txs == f.txs + [tx] && g.ctx == f.ctx &&
      g.gasUsed == (f.gasUsed + run.receipt.value.gasUsed) % 0x1_0000_0000_0000_0000 &&
      (forall id :: id in g.processed <==> id in f.processed || id == tx.id) &&
      g.processed[tx.id] == run.receipt.value.reverted
  {
  }

  /** Without a target the packer keeps the parent's limit; with one it moves straight towards it. */
  lemma PackerGasLimitMoves(target: uint64, parent: uint64)
    requires parent >= MIN_GAS_LIMIT
    ensures var q := PackerGasLimit(target, parent);
      var goal := if target == 0 then parent else Goal(target);
      if parent <= goal then q == parent + Min64(goal - parent, parent / 1024)
      else q == parent - Min64(parent - goal, parent / 1024)
  {
    QualifyStep(target, parent);
  }

  lemma PackerGasLimitIsValid(target: uint64, parent: uint64)
    requires parent >= MIN_GAS_LIMIT
    ensures IsValid(PackerGasLimit(target, parent), parent)
  {
    QualifyValidIff(target, parent);
  }

  /** The header of a packed block passes exactly when the packer keeps time, moves its gas limit by at
      most one 1024th and not below a million, did not use more, can still count up the score, and
      agrees on the last KBlock. */
  lemma PackedHeaderPassesIff(w: World, parent: Header, time: uint64, gasLimit: uint64, beneficiary: nat, nodeMaster: nat,
                              offers: seq<Tx>, now: uint64, epoch: nat, lastK: nat, localLastK: nat)
    ensures var f := AdoptAll(w, Mock(parent, time, gasLimit, beneficiary, nodeMaster), offers);
      ValidHeader(Pack(f, MBlock, lastK).header, parent, now, true, epoch, localLastK) <==>
      parent.timestamp < time <= (now + 10) % 0x1_0000_0000_0000_0000 && gasLimit >= 1_000_000 &&
      1024 * (gasLimit - parent.gasLimit) <= parent.gasLimit && 1024 * (parent.gasLimit - gasLimit) <= parent.gasLimit &&
      f.gasUsed <= gasLimit && parent.totalScore + 1 < 0x1_0000_0000_0000_0000 &&
      (epoch == 14603 || parent.lastKBlockHeight <= lastK) && lastK == localLastK
  {
    var f0 := Mock(parent, time, gasLimit, beneficiary, nodeMaster);
    assert Replayable(w, parent.stateRoot, f0);
    AdoptAllStaysReplayable(w, parent.stateRoot, f0, offers);
    HeaderIff(Pack(AdoptAll(w, f0, offers), MBlock, lastK).header, parent, now, true, epoch, localLastK);
  }

  /** On a parent whose gas limit, score and last KBlock are in order, keeping time is enough
      for the header, whatever is offered. */
  lemma PackedHeaderPasses(w: World, parent: Header, time: uint64, gasLimit: uint64, beneficiary: nat, nodeMaster: nat,
                           offers: seq<Tx>, now: uint64, epoch: nat, lastK: nat)
    requires Frugal(w) && IsValid(gasLimit, parent.gasLimit) && parent.totalScore + 1 < TWO64
    requires parent.timestamp < time <= Add64(now, BLOCK_INTERVAL)
    requires lastK >= parent.lastKBlockHeight
    requires forall k :: 0 <= k < |offers| ==> gasLimit + offers[k].gas < TWO64
    ensures var f := AdoptAll(w, Mock(parent, time, gasLimit, beneficiary, nodeMaster), offers);
      ValidHeader(Pack(f, MBlock, lastK).header, parent, now, true, epoch, lastK)
  {
    var f0 := Mock(parent, time, gasLimit, beneficiary, nodeMaster);
    AdoptAllWithinLimit(w, f0, offers);
    assert Replayable(w, parent.stateRoot, f0);
    AdoptAllStaysReplayable(w, parent.stateRoot, f0, offers);
  }

  /** A packer that qualifies its gas limit, keeps time and agrees on the last KBlock builds a
      block every validator accepts, whatever transactions with known senders it is offered. */
  lemma PackedBlockValidates(w: World, parent: Header, time: uint64, target: uint64, beneficiary: nat, nodeMaster: nat,
                             offers: seq<Tx>, now: uint64, epoch: nat, lastK: nat)
    requires Frugal(w) && KnownSenders(offers)
    requires parent.gasLimit >= MIN_GAS_LIMIT && parent.totalScore + 1 < TWO64
    requires parent.timestamp < time <= Add64(now, BLOCK_INTERVAL)
    requires lastK >= parent.lastKBlockHeight
    requires forall k :: 0 <= k < |offers| ==> PackerGasLimit(target, parent.gasLimit) + offers[k].gas < TWO64
    ensures var f := AdoptAll(w, Mock(parent, time, PackerGasLimit(target, parent.gasLimit), beneficiary, nodeMaster), offers);
      Validate(w, Pack(f, MBlock, lastK), parent, now, true, epoch, lastK) == Some((f.state, f.receipts))
  {
    var gl := PackerGasLimit(target, parent.gasLimit);
    PackerGasLimitIsValid(target, parent.gasLimit);
    PackedHeaderPasses(w, parent, time, gl, beneficiary, nodeMaster, offers, now, epoch, lastK);
    AdoptedAreOffers(w, Mock(parent, time, gl, beneficiary, nodeMaster), offers);
    PackedBlockValidatesIff(w, parent, time, gl, beneficiary, nodeMaster, offers, now, epoch, lastK, lastK);
  }

  // ---------- equivalence of the two loops ----------

  function EmptyFlow(ctx: Context, start: nat): Flow {
    Flow(ctx, map[], 0, [], [], start)
  }

  /** After replaying the transactions before `k`, the gas that `k` declares still fits. */
  predicate FitsAt(w: World, ctx: Context, start: nat, txs: seq<Tx>, k: nat)
    requires k < |txs|
  {
    match ReplayAll(w, ctx, MBlock, start, txs[..k])
    case None => false
    case Some(acc) => Add64(acc.gas, txs[k].gas) <= ctx.gasLimit
  }

  predicate FitThroughout(w: World, ctx: Context, start: nat, txs: seq<Tx>) {
    forall k :: 0 <= k < |txs| ==> FitsAt(w, ctx, start, txs, k)
  }

  predicate ValidThroughout(w: World, ctx: Context, txs: seq<Tx>) {
    forall k :: 0 <= k < |txs| ==> ValidTx(w, ctx.number, txs[k], true)
  }

  lemma {:induction false} AdoptAllSnoc(w: World, f: Flow, txs: seq<Tx>, tx: Tx)
    ensures AdoptAll(w, f, txs + [tx]) == Adopt(w, AdoptAll(w, f, txs), tx).0
    decreases |txs|
  {
    if txs == [] {
      assert ([] + [tx])[1..] == [];
    } else {
      assert (txs + [tx])[1..] == txs[1..] + [tx];
      AdoptAllSnoc(w, Adopt(w, f, txs[0]).0, txs[1..], tx);
    }
  }

  lemma {:induction false} AdoptsAtMost(w: World, f: Flow, txs: seq<Tx>)
    ensures |AdoptAll(w, f, txs).txs| <= |f.txs| + |txs|
    decreases |txs|
  {
    if txs != [] {
      AdoptShape(w, f, txs[0]);
      AdoptsAtMost(w, Adopt(w, f, txs[0]).0, txs[1..]);
    }
  }

  lemma PrefixConditions(w: World, ctx: Context, start: nat, txs: seq<Tx>)
    requires txs != []
    ensures var init, n := txs[..|txs| - 1], |txs| - 1;
      && (FitThroughout(w, ctx, start, txs) <==> FitThroughout(w, ctx, start, init) && FitsAt(w, ctx, start, txs, n))
      && (ValidThroughout(w, ctx, txs) <==> ValidThroughout(w, ctx, init) && ValidTx(w, ctx.number, txs[n], true))
  {
    var init, n := txs[..|txs| - 1], |txs| - 1;
    forall k | 0 <= k < n
      ensures FitsAt(w, ctx, start, init, k) == FitsAt(w, ctx, start, txs, k)
    {
      assert init[..k] == txs[..k];
    }
    if FitThroughout(w, ctx, start, txs) {
      forall k | 0 <= k < n
        ensures FitsAt(w, ctx, start, init, k)
      {
        assert FitsAt(w, ctx, start, txs, k);
      }
    }
    if ValidThroughout(w, ctx, txs) {
      forall k | 0 <= k < n
        ensures ValidTx(w, ctx.number, init[k], true)
      {
        assert ValidTx(w, ctx.number, txs[k], true);
      }
    }
  }

  /** The packer takes every transaction of a list exactly when the validator replays the list,
      its body checks pass and each declared gas fits at its turn. */
  lemma {:induction false} AllAdoptedIffReplays(w: World, ctx: Context, start: nat, txs: seq<Tx>)
    requires KnownSenders(txs)
    ensures AdoptAll(w, EmptyFlow(ctx, start), txs).txs == txs <==>
      (ReplayAll(w, ctx, MBlock, start, txs).Some? && ValidThroughout(w, ctx, txs) && FitThroughout(w, ctx, start, txs))
    decreases |txs|
  {
    var f0 := EmptyFlow(ctx, start);
    if txs != [] {
      var init, tx := txs[..|txs| - 1], txs[|txs| - 1];
      assert txs == init + [tx];
      assert KnownSenders(init);
      AllAdoptedIffReplays(w, ctx, start, init);
      PrefixConditions(w, ctx, start, txs);
      AdoptAllSnoc(w, f0, init, tx);
      var f := AdoptAll(w, f0, init);
      AdoptsAtMost(w, f0, init);
      AdoptShape(w, f, tx);
      assert Replayable(w, start, f0);
      AdoptAllStaysReplayable(w, start, f0, init);
      if f.txs == init {
        AdoptIff(w, f, tx);
      } else if |f.txs| == |init| {
        assert Adopt(w, f, tx).0.txs == txs ==> f.txs == init;
      }
    }
  }

  // ---------- what a replayed block guarantees ----------

  /** A transaction's dependency was met: on the parent's chain or earlier in the block. */
  predicate DependencyMet(w: World, txs: seq<Tx>, receipts: seq<Receipt>, k: nat)
    requires k < |txs| == |receipts|
  {
    txs[k].dependsOn.None? ||
    w.meta(txs[k].dependsOn.value) == Found(false) ||
    exists j :: 0 <= j < k && txs[j].id == txs[k].dependsOn.value && !receipts[j].reverted
  }

  predicate Records(txs: seq<Tx>, acc: Replay) {
    |acc.receipts| == |txs| &&
    (forall k :: 0 <= k < |txs| ==> txs[k].id in acc.processed && acc.processed[txs[k].id] == acc.receipts[k].reverted) &&
    (forall id :: id in acc.processed ==> exists k :: 0 <= k < |txs| && txs[k].id == id)
  }

  /** No transaction twice, none already on the parent's chain. */
  predicate AllNew(w: World, txs: seq<Tx>) {
    (forall i, j :: 0 <= i < j < |txs| ==> txs[i].id != txs[j].id) &&
    (forall k :: 0 <= k < |txs| ==> w.meta(txs[k].id) == NotFound)
  }

  lemma LastReplayed(w: World, ctx: Context, kind: Kind, start: nat, init: seq<Tx>, tx: Tx)
    returns (acc: Replay, next: Replay)
    requires ReplayAll(w, ctx, kind, start, init + [tx]).Some?
    ensures ReplayAll(w, ctx, kind, start, init) == Some(acc) && ReplayAll(w, ctx, kind, start, init + [tx]) == Some(next)
    ensures tx.id !in acc.processed && w.meta(tx.id) == NotFound
    ensures tx.dependsOn.Some? ==> FindTx(w, acc.processed, tx.dependsOn.value) == Found(false)
    ensures |next.receipts| == |acc.receipts| + 1 && next.receipts[..|acc.receipts|] == acc.receipts
    ensures next.processed == acc.processed[tx.id := next.receipts[|acc.receipts|].reverted]
  {
    ReplaySnoc(w, ctx, kind, start, init, tx);
    acc := ReplayAll(w, ctx, kind, start, init).value;
    next := ReplayOne(w, ctx, kind, acc, tx).value;
  }

  lemma NewOne(w: World, init: seq<Tx>, tx: Tx, acc: Replay)
    requires AllNew(w, init) && Records(init, acc)
    requires tx.id !in acc.processed && w.meta(tx.id) == NotFound
    ensures AllNew(w, init + [tx])
  {
    forall k | 0 <= k < |init|
      ensures init[k].id != tx.id
    {
      assert init[k].id in acc.processed;
    }
  }

  lemma RecordOne(init: seq<Tx>, tx: Tx, acc: Replay, next: Replay)
    requires Records(init, acc) && |next.receipts| == |acc.receipts| + 1
    requires next.receipts[..|init|] == acc.receipts
    requires next.processed == acc.processed[tx.id := next.receipts[|init|].reverted] && tx.id !in acc.processed
    ensures Records(init + [tx], next)
  {
    forall k | 0 <= k < |init| + 1
      ensures (init + [tx])[k].id in next.processed && next.processed[(init + [tx])[k].id] == next.receipts[k].reverted
    {
      if k < |init| {
        assert init[k].id in acc.processed && next.receipts[k] == acc.receipts[k];
      }
    }
    forall id | id in next.processed
      ensures exists k :: 0 <= k < |init + [tx]| && (init + [tx])[k].id == id
    {
      if id == tx.id {
        assert (init + [tx])[|init|].id == id;
      } else {
        var k :| 0 <= k < |init| && init[k].id == id;
        assert (init + [tx])[k].id == id;
      }
    }
  }

  /** An accepted block runs no transaction twice and none already on the parent's chain. */
  lemma {:induction false} ReplayedAreNew(w: World, ctx: Context, kind: Kind, start: nat, txs: seq<Tx>)
    requires ReplayAll(w, ctx, kind, start, txs).Some?
    ensures Records(txs, ReplayAll(w, ctx, kind, start, txs).value)
    ensures AllNew(w, txs)
  {
    if txs != [] {
      var init, tx := txs[..|txs| - 1], txs[|txs| - 1];
      assert txs == init + [tx];
      var acc, next := LastReplayed(w, ctx, kind, start, init, tx);
      ReplayedAreNew(w, ctx, kind, start, init);
      NewOne(w, init, tx, acc);
      RecordOne(init, tx, acc, next);
    }
  }

  lemma LastDependencyMet(w: World, init: seq<Tx>, tx: Tx, acc: Replay, next: Replay)
    requires Records(init, acc) && |next.receipts| == |acc.receipts| + 1
    requires next.receipts[..|acc.receipts|] == acc.receipts
    requires tx.dependsOn.Some? ==> FindTx(w, acc.processed, tx.dependsOn.value) == Found(false)
    ensures DependencyMet(w, init + [tx], next.receipts, |init|)
  {
    if tx.dependsOn.Some? && tx.dependsOn.value in acc.processed {
      var j :| 0 <= j < |init| && init[j].id == tx.dependsOn.value;
      assert (init + [tx])[j] == init[j] && next.receipts[j] == acc.receipts[j];
    }
  }

  lemma EarlierDependencyMet(w: World, init: seq<Tx>, tx: Tx, earlier: seq<Receipt>, receipts: seq<Receipt>, k: nat)
    requires k < |init| == |earlier| && |receipts| == |earlier| + 1 && receipts[..|earlier|] == earlier
    requires DependencyMet(w, init, earlier, k)
    ensures DependencyMet(w, init + [tx], receipts, k)
  {
    if init[k].dependsOn.Some? && w.meta(init[k].dependsOn.value) != Found(false) {
      var j :| 0 <= j < k && init[j].id == init[k].dependsOn.value && !earlier[j].reverted;
      assert (init + [tx])[j] == init[j] && receipts[j] == earlier[j];
    }
  }

  /** Every dependency in an accepted block was met before its turn. */
  lemma {:induction false} ReplayedInOrder(w: World, ctx: Context, kind: Kind, start: nat, txs: seq<Tx>, k: nat)
    requires ReplayAll(w, ctx, kind, start, txs).Some? && k < |txs|
    ensures |ReplayAll(w, ctx, kind, start, txs).value.receipts| == |txs|
    ensures DependencyMet(w, txs, ReplayAll(w, ctx, kind, start, txs).value.receipts, k)
    decreases |txs|
  {
    var init, tx := txs[..|txs| - 1], txs[|txs| - 1];
    assert txs == init + [tx];
    var acc, next := LastReplayed(w, ctx, kind, start, init, tx);
    ReplayedAreNew(w, ctx, kind, start, init);
    if k < |init| {
      ReplayedInOrder(w, ctx, kind, start, init, k);
      EarlierDependencyMet(w, init, tx, acc.receipts, next.receipts, k);
    } else {
      LastDependencyMet(w, init, tx, acc, next);
    }
  }
}
