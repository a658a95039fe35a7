/** The transactions of an auction: a list sorted by id, searched by halving, with the total
    received kept beside it. */
module Auction {
  import opened Blocks

  datatype AuctionTx = AuctionTx(id: nat, amount: nat)

  datatype Book = Book(txs: seq<AuctionTx>, received: int)

  predicate Sorted(txs: seq<AuctionTx>) {
    forall i, j :: 0 <= i < j < |txs| ==> txs[i].id < txs[j].id
  }

  function Contents(txs: seq<AuctionTx>): map<nat, AuctionTx>
    requires Sorted(txs)
  {
    map k | 0 <= k < |txs| :: txs[k].id := txs[k]
  }

  function Sum(txs: seq<AuctionTx>): nat {
    if txs == [] then 0 else Sum(txs[..|txs| - 1]) + txs[|txs| - 1].amount
  }

  /** Where the list splits into smaller and larger ids. */
  predicate Splits(txs: seq<AuctionTx>, at: int, id: nat) {
    0 <= at <= |txs| && (forall k :: 0 <= k < at ==> txs[k].id < id) && (forall k :: at <= k < |txs| ==> id < txs[k].id)
  }

  function Put(txs: seq<AuctionTx>, at: int, tx: AuctionTx): seq<AuctionTx>
    requires 0 <= at <= |txs|
  {
    txs[..at] + [tx] + txs[at..]
  }

  function Drop(txs: seq<AuctionTx>, at: int): seq<AuctionTx>
    requires 0 <= at < |txs|
  {
    txs[..at] + txs[at + 1..]
  }

  lemma {:induction false} SumConcat(s: seq<AuctionTx>, t: seq<AuctionTx>)
    ensures Sum(s + t) == Sum(s) + Sum(t)
    decreases |t|
  {
    if t == [] {
      assert s + t == s;
    } else {
      var init := t[..|t| - 1];
      SumConcat(s, init);
      assert (s + t)[..|s + t| - 1] == s + init;
    }
  }

  lemma SumBetween(a: seq<AuctionTx>, tx: AuctionTx, b: seq<AuctionTx>)
    ensures Sum(a + [tx] + b) == Sum(a + b) + tx.amount
  {
    var c := a + [tx];
    assert c[..|a|] == a;
    SumConcat(c, b);
    SumConcat(a, b);
  }

  /** One list holds what the other holds, and `tx` besides. */
  predicate OneMore(txs: seq<AuctionTx>, tx: AuctionTx, all: seq<AuctionTx>) {
    tx in all && (forall x :: x in txs ==> x in all) && (forall x :: x in all ==> x in txs || x == tx)
  }

  lemma InContents(txs: seq<AuctionTx>)
    requires Sorted(txs)
    ensures forall x :: x in txs ==> x.id in Contents(txs) && Contents(txs)[x.id] == x
    ensures forall id :: id in Contents(txs) ==> Contents(txs)[id] in txs && Contents(txs)[id].id == id
  {
  }

  /** A map that holds exactly the elements of a list, by id. */
  predicate MapOf(m: map<nat, AuctionTx>, txs: seq<AuctionTx>) {
    (forall x :: x in txs ==> x.id in m && m[x.id] == x) && (forall id :: id in m ==> m[id] in txs && m[id].id == id)
  }

  lemma MapOneMore(m: map<nat, AuctionTx>, txs: seq<AuctionTx>, tx: AuctionTx, n: map<nat, AuctionTx>, all: seq<AuctionTx>)
    requires MapOf(m, txs) && MapOf(n, all) && OneMore(txs, tx, all) && tx.id !in m
    ensures n == m[tx.id := tx] && m == n - {tx.id}
  {
    forall id | id in n && id != tx.id
      ensures id in m && n[id] == m[id]
    {
      assert n[id] in all;
    }
    forall id | id in m
      ensures id in n && n[id] == m[id]
    {
      assert m[id] in txs;
    }
  }

  lemma ContentsOneMore(txs: seq<AuctionTx>, tx: AuctionTx, all: seq<AuctionTx>)
    requires Sorted(txs) && Sorted(all) && OneMore(txs, tx, all) && forall x :: x in txs ==> x.id != tx.id
    ensures Contents(all) == Contents(txs)[tx.id := tx] && Contents(txs) == Contents(all) - {tx.id}
  {
    InContents(txs);
    InContents(all);
    MapOneMore(Contents(txs), txs, tx, Contents(all), all);
  }

  lemma PutSorted(txs: seq<AuctionTx>, at: int, tx: AuctionTx)
    requires Sorted(txs) && Splits(txs, at, tx.id)
    ensures Sorted(Put(txs, at, tx))
  {
  }

  lemma PutHolds(txs: seq<AuctionTx>, at: int, tx: AuctionTx)
    requires 0 <= at <= |txs|
    ensures OneMore(txs, tx, Put(txs, at, tx))
  {
    var a, b := txs[..at], txs[at..];
    assert txs == a + b;
    assert forall x :: x in txs <==> x in a || x in b;
    assert forall x :: x in a + [tx] + b <==> x in a || x == tx || x in b;
  }

  lemma PutWorks(txs: seq<AuctionTx>, at: int, tx: AuctionTx)
    requires Sorted(txs) && Splits(txs, at, tx.id)
    ensures Sorted(Put(txs, at, tx)) && Contents(Put(txs, at, tx)) == Contents(txs)[tx.id := tx]
    ensures Sum(Put(txs, at, tx)) == Sum(txs) + tx.amount
  {
    PutSorted(txs, at, tx);
    PutHolds(txs, at, tx);
    ContentsOneMore(txs, tx, Put(txs, at, tx));
    SumBetween(txs[..at], tx, txs[at..]);
    assert txs[..at] + txs[at..] == txs;
  }

  lemma DropSplits(txs: seq<AuctionTx>, at: int)
    requires Sorted(txs) && 0 <= at < |txs|
    ensures Sorted(Drop(txs, at)) && Splits(Drop(txs, at), at, txs[at].id)
    ensures Put(Drop(txs, at), at, txs[at]) == txs
  {
  }

  /** Dropping undoes putting. */
  lemma DropWorks(txs: seq<AuctionTx>, at: int)
    requires Sorted(txs) && 0 <= at < |txs|
    ensures Sorted(Drop(txs, at)) && Contents(Drop(txs, at)) == Contents(txs) - {txs[at].id}
    ensures Sum(Drop(txs, at)) == Sum(txs) - txs[at].amount
  {
    var rest, tx := Drop(txs, at), txs[at];
    DropSplits(txs, at);
    PutHolds(rest, at, tx);
    ContentsOneMore(rest, tx, txs);
    PutWorks(rest, at, tx);
  }

  // ---------- runs ----------

  /** The first slot whose id is not smaller. */
  function Place(txs: seq<AuctionTx>, id: nat): (at: nat)
    ensures at <= |txs|
  {
    if txs == [] || txs[|txs| - 1].id < id then |txs| else Place(txs[..|txs| - 1], id)
  }

  lemma {:induction false} PlaceDivides(txs: seq<AuctionTx>, id: nat)
    requires Sorted(txs)
    ensures forall k :: 0 <= k < Place(txs, id) ==> txs[k].id < id
    ensures forall k :: Place(txs, id) <= k < |txs| ==> id <= txs[k].id
  {
    if !(txs == [] || txs[|txs| - 1].id < id) {
      PlaceDivides(txs[..|txs| - 1], id);
    }
  }

  datatype Op = Add(tx: AuctionTx) | Remove(tx: AuctionTx)

  predicate Has(txs: seq<AuctionTx>, id: nat) {
    Place(txs, id) < |txs| && txs[Place(txs, id)].id == id
  }

  function Step(b: Book, op: Op): Book {
    var at := Place(b.txs, op.tx.id);
    match op
    case Add(tx) => if Has(b.txs, tx.id) then b else Book(Put(b.txs, at, tx), b.received + tx.amount)
    case Remove(tx) => if !Has(b.txs, tx.id) then b else Book(Drop(b.txs, at), b.received - tx.amount)
  }

  function Run(b: Book, ops: seq<Op>): Book {
    if ops == [] then b else Step(Run(b, ops[..|ops| - 1]), ops[|ops| - 1])
  }

  /** The same operations on a plain finite map. */
  function Plain(m: map<nat, AuctionTx>, op: Op): map<nat, AuctionTx> {
    match op
    case Add(tx) => if tx.id in m then m else m[tx.id := tx]
    case Remove(tx) => m - {tx.id}
  }

  function PlainRun(m: map<nat, AuctionTx>, ops: seq<Op>): map<nat, AuctionTx> {
    if ops == [] then m else Plain(PlainRun(m, ops[..|ops| - 1]), ops[|ops| - 1])
  }

  /** How far a removal gives back something other than what was received. */
  function Drift(m: map<nat, AuctionTx>, op: Op): int {
    if op.Remove? && op.tx.id in m then m[op.tx.id].amount - op.tx.amount else 0
  }

  function DriftOf(m: map<nat, AuctionTx>, ops: seq<Op>): int {
    if ops == [] then 0
    else DriftOf(m, ops[..|ops| - 1]) + Drift(PlainRun(m, ops[..|ops| - 1]), ops[|ops| - 1])
  }

  lemma HasIff(txs: seq<AuctionTx>, id: nat)
    requires Sorted(txs)
    ensures Has(txs, id) <==> id in Contents(txs)
    ensures Has(txs, id) ==> Contents(txs)[id] == txs[Place(txs, id)]
    ensures !Has(txs, id) ==> Splits(txs, Place(txs, id), id)
  {
    PlaceDivides(txs, id);
  }

  lemma StepWorks(b: Book, op: Op)
    requires Sorted(b.txs)
    ensures Sorted(Step(b, op).txs) && Contents(Step(b, op).txs) == Plain(Contents(b.txs), op)
    ensures Step(b, op).received - Sum(Step(b, op).txs) == b.received - Sum(b.txs) + Drift(Contents(b.txs), op)
  {
    var at, tx := Place(b.txs, op.tx.id), op.tx;
    HasIff(b.txs, tx.id);
    if op.Add? && !Has(b.txs, tx.id) {
      PutWorks(b.txs, at, tx);
    } else if op.Remove? && Has(b.txs, tx.id) {
      DropWorks(b.txs, at);
    } else if op.Remove? {
      assert Contents(b.txs) - {tx.id} == Contents(b.txs);
    }
  }

  /** After any run the list is strictly sorted, holds what a plain map would hold, and the total
      received is the sum of what is held, up to what removals gave back wrongly. */
  lemma {:induction false} RunWorks(b: Book, ops: seq<Op>)
    requires Sorted(b.txs)
    ensures Sorted(Run(b, ops).txs) && Contents(Run(b, ops).txs) == PlainRun(Contents(b.txs), ops)
    ensures Run(b, ops).received - Sum(Run(b, ops).txs) == b.received - Sum(b.txs) + DriftOf(Contents(b.txs), ops)
  {
    if ops != [] {
      RunWorks(b, ops[..|ops| - 1]);
      StepWorks(Run(b, ops[..|ops| - 1]), ops[|ops| - 1]);
    }
  }

  /** Every amount named in the run is the one its id stands for. */
  predicate Fixed(amount: nat -> nat, ops: seq<Op>) {
    forall k :: 0 <= k < |ops| ==> ops[k].tx.amount == amount(ops[k].tx.id)
  }

  lemma {:induction false} FixedNoDrift(amount: nat -> nat, ops: seq<Op>)
    requires Fixed(amount, ops)
    ensures DriftOf(map[], ops) == 0
    ensures forall id :: id in PlainRun(map[], ops) ==> PlainRun(map[], ops)[id].amount == amount(id)
  {
    if ops != [] {
      FixedNoDrift(amount, ops[..|ops| - 1]);
    }
  }

  /** With amounts fixed by id, the total received is always the sum of the amounts held. */
  lemma ReceivedIsSum(amount: nat -> nat, ops: seq<Op>)
    requires Fixed(amount, ops)
    ensures Run(Book([], 0), ops).received == Sum(Run(Book([], 0), ops).txs)
  {
    assert Contents([]) == map[];
    RunWorks(Book([], 0), ops);
    FixedNoDrift(amount, ops);
  }

  // ---------- the object ----------

  /** What the binary search finds: the slot of the id, or the place to put it. */
  predicate Located(txs: seq<AuctionTx>, id: nat, index: int, place: int) {
    if index >= 0 then Has(txs, id) && index == Place(txs, id) && place == -1
    else index == -1 && !Has(txs, id) && place == Place(txs, id)
  }

  lemma FoundAt(txs: seq<AuctionTx>, id: nat, at: int)
    requires Sorted(txs) && 0 <= at <= |txs| && (forall k :: 0 <= k < at ==> txs[k].id < id)
    requires forall k :: at <= k < |txs| ==> id <= txs[k].id
    ensures Place(txs, id) == at
  {
    PlaceDivides(txs, id);
  }

  class AuctionCB {
    var txs: seq<AuctionTx>
    var received: int

    function View(): Book
      reads this
    {
      Book(txs, received)
    }

    constructor ()
      ensures View() == Book([], 0)
    {
      txs, received := [], 0;
    }

    method IndexOf(id: nat) returns (index: int, place: int)
      requires Sorted(txs)
      ensures Located(txs, id, index, place)
    {
      if |txs| <= 0 {
        return -1, 0;
      }
      var l, r := 0, |txs|;
      while l < r
        invariant 0 <= l <= r <= |txs|
        invariant forall k :: 0 <= k < l ==> txs[k].id < id
        invariant forall k :: r <= k < |txs| ==> id < txs[k].id
      {
        var m := (l + r) / 2;
        if id < txs[m].id {
          r := m;
        } else if id > txs[m].id {
          l := m + 1;
        } else {
          FoundAt(txs, id, m);
          return m, -1;
        }
      }
      FoundAt(txs, id, r);
      return -1, r;
    }

    /** The search agrees with a plain finite map. */
    method Get(id: nat) returns (r: Option<AuctionTx>)
      requires Sorted(txs)
      ensures r == if id in Contents(txs) then Some(Contents(txs)[id]) else None
      ensures r.Some? <==> Has(txs, id)
    {
      var index, place := IndexOf(id);
      HasIff(txs, id);
      if index < 0 {
        return None;
      }
      return Some(txs[index]);
    }

    method Insert(tx: AuctionTx)
      requires Sorted(txs)
      modifies this`txs
      ensures txs == if Has(old(txs), tx.id) then old(txs)[Place(old(txs), tx.id) := tx] else Put(old(txs), Place(old(txs), tx.id), tx)
    {
      var index, place := IndexOf(tx.id);
      if index < 0 {
        if |txs| == 0 {
          txs := [tx];
          return;
        }
        txs := txs[..place] + [tx] + txs[place..];
      } else {
        txs := txs[index := tx];
      }
    }

    method Delete(id: nat)
      requires Sorted(txs)
      modifies this`txs
      ensures txs == if Has(old(txs), id) then Drop(old(txs), Place(old(txs), id)) else old(txs)
    {
      var index, place := IndexOf(id);
      if index >= 0 {
        txs := txs[..index] + txs[index + 1..];
      }
    }

    method AddAuctionTx(tx: AuctionTx) returns (ok: bool)
      requires Sorted(txs)
      modifies this
      ensures Sorted(txs) && View() == Step(old(View()), Add(tx)) && ok == !Has(old(txs), tx.id)
    {
      StepWorks(View(), Add(tx));
      var known := Get(tx.id);
      if known.Some? {
        return false;
      }
      received := received + tx.amount;
      Insert(tx);
      return true;
    }

    method RemoveAuctionTx(tx: AuctionTx) returns (ok: bool)
      requires Sorted(txs)
      modifies this
      ensures Sorted(txs) && View() == Step(old(View()), Remove(tx)) && ok == Has(old(txs), tx.id)
    {
      StepWorks(View(), Remove(tx));
      var known := Get(tx.id);
      if known.None? {
        return false;
      }
      received := received - tx.amount;
      Delete(tx.id);
      return true;
    }
  }
}
