/** Blocks as values: an identifier fixes its parent and its contents, so a block is
    identified with its chain back to genesis, and hashes are injective by construction. */
module Blocks {

  datatype Option<+T> = None | Some(value: T)

  datatype Kind = KBlock | MBlock | SBlock

  type TxId = nat

  datatype Block =
    | Genesis
    | Block(parent: Block, kind: Kind, txs: seq<TxId>, salt: nat)
  {
    function Number(): nat {
      if Genesis? then 0 else parent.Number() + 1
    }

    predicate IsKBlock() {
      Block? && kind == KBlock
    }

    predicate IsSBlock() {
      Block? && kind == SBlock
    }

    function Transactions(): seq<TxId> {
      if Genesis? then [] else txs
    }
  }

  /** `b` is `a` or one of its descendants. */
  predicate Extends(b: Block, a: Block) {
    b == a || (b.Block? && Extends(b.parent, a))
  }

  lemma {:induction false} ExtendsGrows(b: Block, a: Block)
    requires Extends(b, a)
    ensures a.Number() <= b.Number()
    ensures a.Number() == b.Number() ==> a == b
  {
    if b != a {
      ExtendsGrows(b.parent, a);
    }
  }

  lemma {:induction false} ExtendsTransitive(c: Block, b: Block, a: Block)
    requires Extends(c, b) && Extends(b, a)
    ensures Extends(c, a)
  {
    if c != b {
      ExtendsTransitive(c.parent, b, a);
    }
  }

  /** Two ancestors of one block are on one chain. */
  lemma {:induction false} AncestorsComparable(c: Block, a: Block, b: Block)
    requires Extends(c, a) && Extends(c, b) && a.Number() <= b.Number()
    ensures Extends(b, a)
  {
    if c == b {
    } else if c == a {
      ExtendsGrows(a, b);
    } else {
      AncestorsComparable(c.parent, a, b);
    }
  }

  /** The ancestor of `b` at height `h`. */
  function AncestorAt(b: Block, h: nat): (a: Block)
    requires h <= b.Number()
    ensures a.Number() == h && Extends(b, a)
  {
    if b.Number() == h then b else AncestorAt(b.parent, h)
  }
}
