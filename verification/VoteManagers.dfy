/** The vote managers for blocks and for timeouts, and the verification of the certificates
    they issue. */
module VoteManagers {
  import opened Quorum
  import opened Blocks
  import Drafts
  import Network
  import opened Votes

  // ---------- aggregate signatures ----------

  /** The votes carrying signature `e`. */
  function Holders(vs: map<nat, Vote>, e: Element): set<nat> {
    set i | i in vs && vs[i].sig == e
  }

  /** Multiplying signatures forgets their order and nothing else. */
  ghost predicate AggregateOf(vs: map<nat, Vote>, agg: multiset<Element>) {
    forall e :: agg[e] == |Holders(vs, e)|
  }

  /** The marked committee members, in committee order. */
  function Marked(bits: set<nat>, n: nat): seq<nat> {
    if n == 0 then [] else Marked(bits, n - 1) + (if n - 1 in bits then [n - 1] else [])
  }

  function SignedBy(keys: seq<nat>, hash: Hash): multiset<Element> {
    if keys == [] then multiset{}
    else SignedBy(keys[..|keys| - 1], hash) + multiset{Signed(keys[|keys| - 1], hash)}
  }

  /** An aggregate verifies exactly when it consists of one signature of `hash` per key. */
  predicate ThresholdVerify(agg: multiset<Element>, hash: Hash, keys: seq<nat>) {
    keys != [] && agg == SignedBy(keys, hash)
  }

  lemma {:induction false} MarkedSignatures(bits: set<nat>, n: nat, hash: Hash, e: Element)
    ensures SignedBy(Marked(bits, n), hash)[e] ==
      if e.Signed? && e.hash == hash && e.signer in bits && e.signer < n then 1 else 0
  {
    if n > 0 {
      MarkedSignatures(bits, n - 1, hash, e);
      if n - 1 in bits {
        var keys := Marked(bits, n);
        assert keys[..|keys| - 1] == Marked(bits, n - 1);
      } else {
        assert Marked(bits, n) == Marked(bits, n - 1);
      }
    }
  }

  lemma {:induction false} MarkedMembers(bits: set<nat>, n: nat, i: nat)
    requires i in bits && i < n
    ensures i in Marked(bits, n)
  {
    if i < n - 1 {
      MarkedMembers(bits, n - 1, i);
    }
  }

  /** Votes of committee members, each a proper signature of `hash`. */
  predicate ProperVotes(vs: map<nat, Vote>, n: nat, hash: Hash) {
    forall i :: i in vs ==> i < n && vs[i] == Vote(hash, Signed(i, hash))
  }

  /** The aggregate of proper votes verifies against the keys of exactly the voters. */
  lemma ProperVotesVerify(vs: map<nat, Vote>, n: nat, hash: Hash, agg: multiset<Element>)
    requires vs != map[] && ProperVotes(vs, n, hash) && AggregateOf(vs, agg)
    ensures ThresholdVerify(agg, hash, Marked(vs.Keys, n))
  {
    var keys := Marked(vs.Keys, n);
    var i :| i in vs;
    MarkedMembers(vs.Keys, n, i);
    forall e
      ensures agg[e] == SignedBy(keys, hash)[e]
    {
      MarkedSignatures(vs.Keys, n, hash, e);
      if e.Signed? && e.hash == hash && e.signer in vs {
        assert Holders(vs, e) == {e.signer};
      } else {
        assert Holders(vs, e) == {};
      }
    }
  }

  /** Conversely, a verifying aggregate holds a signature of every marked member. */
  lemma VerifiedSignatures(agg: multiset<Element>, hash: Hash, bits: set<nat>, n: nat, i: nat)
    requires ThresholdVerify(agg, hash, Marked(bits, n)) && i in bits && i < n
    ensures Signed(i, hash) in agg
  {
    MarkedSignatures(bits, n, hash, Signed(i, hash));
  }

  /** The aggregate of the votes at the indices `done`. */
  ghost predicate PartialAggregate(vs: map<nat, Vote>, done: set<nat>, agg: multiset<Element>) {
    forall e :: agg[e] == |Holders(vs, e) * done|
  }

  lemma AggregateOneMore(vs: map<nat, Vote>, done: set<nat>, agg: multiset<Element>, index: nat)
    requires PartialAggregate(vs, done, agg) && index in vs && index !in done
    ensures PartialAggregate(vs, done + {index}, agg + multiset{vs[index].sig})
  {
    forall e
      ensures (agg + multiset{vs[index].sig})[e] == |Holders(vs, e) * (done + {index})|
    {
      if e == vs[index].sig {
        assert Holders(vs, e) * (done + {index}) == Holders(vs, e) * done + {index};
      } else {
        assert Holders(vs, e) * (done + {index}) == Holders(vs, e) * done;
      }
    }
  }

  lemma AggregateAll(vs: map<nat, Vote>, agg: multiset<Element>)
    requires PartialAggregate(vs, vs.Keys, agg)
    ensures AggregateOf(vs, agg)
  {
    forall e
      ensures agg[e] == |Holders(vs, e)|
    {
      assert Holders(vs, e) * vs.Keys == Holders(vs, e);
    }
  }

  /** An order in which every one of `keys` is visited once. */
  predicate Visits(order: seq<nat>, keys: set<nat>) {
    (forall k :: 0 <= k < |order| ==> order[k] in keys) &&
    (forall i :: i in keys ==> i in order) &&
    (forall j, k :: 0 <= j < k < |order| ==> order[j] != order[k])
  }

  function SigsOf(vs: map<nat, Vote>, order: seq<nat>): (sigs: seq<Element>)
    requires forall k :: 0 <= k < |order| ==> order[k] in vs
    ensures |sigs| == |order|
  {
    if order == [] then []
    else SigsOf(vs, order[..|order| - 1]) + [vs[order[|order| - 1]].sig]
  }

  /** Whatever the order of the visits, the product is the aggregate of all votes. */
  lemma {:induction false} VisitsAggregate(vs: map<nat, Vote>, order: seq<nat>, keys: set<nat>)
    requires keys <= vs.Keys && Visits(order, keys)
    ensures PartialAggregate(vs, keys, multiset(SigsOf(vs, order)))
  {
    if order == [] {
      assert keys == {};
      forall e
        ensures Holders(vs, e) * keys == {}
      {
      }
    } else {
      var init, last := order[..|order| - 1], order[|order| - 1];
      var before := keys - {last};
      assert Visits(init, before) by {
        forall i | i in before
          ensures i in init
        {
          var k :| 0 <= k < |order| && order[k] == i;
          assert init[k] == i;
        }
      }
      VisitsAggregate(vs, init, before);
      AggregateOneMore(vs, before, multiset(SigsOf(vs, init)), last);
      assert before + {last} == keys;
      assert multiset(SigsOf(vs, order)) == multiset(SigsOf(vs, init)) + multiset{vs[last].sig};
    }
  }

  predicate SomeHash(vs: map<nat, Vote>, hash: Hash) {
    exists i :: i in vs && vs[i].hash == hash
  }

  /** The voters that fit a bit array of committee size. */
  function Fitting(voters: set<nat>, n: nat): set<nat> {
    set i | i in voters && i < n
  }

  /** Aggregate the votes: mark the voters that fit the bit array, multiply the signatures,
      and keep the hash of whichever vote was visited last. */
  method Aggregate(vs: map<nat, Vote>, n: nat)
      returns (bits: set<nat>, hash: Option<Hash>, agg: multiset<Element>)
    ensures bits == Fitting(vs.Keys, n)
    ensures AggregateOf(vs, agg)
    ensures if vs == map[] then hash == None else hash.Some? && SomeHash(vs, hash.value)
  {
    var sigs: seq<Element> := [];
    bits, hash := {}, None;
    var rest := vs.Keys;
    ghost var order: seq<nat> := [];
    while rest != {}
      invariant rest <= vs.Keys && Visits(order, vs.Keys - rest)
      invariant bits == Fitting(vs.Keys - rest, n)
      invariant sigs == SigsOf(vs, order)
      invariant if rest == vs.Keys then hash == None else hash.Some? && SomeHash(vs, hash.value)
      decreases rest
    {
      var index :| index in rest;
      var v := vs[index];
      ghost var order' := order + [index];
      assert order'[..|order|] == order;
      VisitOneMore(order, vs.Keys, rest, index);
      sigs := sigs + [v.sig];
      if index < n {
        bits := bits + {index};
      }
      rest, order := rest - {index}, order';
      hash := Some(v.hash);
    }
    assert vs.Keys - {} == vs.Keys;
    VisitsAggregate(vs, order, vs.Keys);
    agg := multiset(sigs);
    AggregateAll(vs, agg);
  }

  lemma VisitOneMore(order: seq<nat>, keys: set<nat>, rest: set<nat>, index: nat)
    requires Visits(order, keys - rest) && index in rest && rest <= keys
    ensures Visits(order + [index], keys - (rest - {index}))
  {
    var order' := order + [index];
    forall i | i in keys - (rest - {index})
      ensures i in order'
    {
      if i == index {
        assert order'[|order|] == index;
      } else {
        assert i in order;
      }
    }
  }

  /** Signature bytes as they arrive: missing, not decodable, or an element. */
  datatype SigBytes = Missing | Malformed | Encoded(element: Element)

  function Read(sig: SigBytes): Option<Element> {
    if sig.Encoded? then Some(sig.element) else None
  }

  // ---------- block certificates ----------

  datatype QuorumCert = QuorumCert(
    height: nat, round: nat, epoch: nat, bits: set<nat>, hash: Hash, agg: multiset<Element>)

  datatype VoteKey = VoteKey(round: nat, block: Block)

  function BlockAge(key: VoteKey): nat {
    key.block.Number()
  }

  /** The certificate states the votes it was made from. */
  ghost predicate QCStates(qc: QuorumCert, key: VoteKey, epoch: nat, vs: map<nat, Vote>, n: nat) {
    qc.height == key.block.Number() && qc.round == key.round && qc.epoch == epoch &&
    qc.bits == Fitting(vs.Keys, n) && AggregateOf(vs, qc.agg) && SomeHash(vs, qc.hash)
  }

  class QCVoteManager {
    const committeeSize: nat
    var votes: map<VoteKey, map<nat, Vote>>
    var sealed: set<VoteKey>

    constructor (committeeSize: nat)
      ensures this.committeeSize == committeeSize && View() == Book(map[], {})
    {
      this.committeeSize := committeeSize;
      votes, sealed := map[], {};
    }

    ghost function View(): Book<VoteKey>
      reads this
    {
      Book(votes, sealed)
    }

    /** `aggregates` is the verdict of the signature library. When it fails, the key is sealed
        all the same and no certificate comes out. */
    method AddVote(index: nat, epoch: nat, round: nat, block: Block, sig: SigBytes, hash: Hash, aggregates: bool)
        returns (qc: Option<QuorumCert>)
      modifies this
      ensures View() == Votes.AddVote(old(View()), committeeSize, VoteKey(round, block), index, Read(sig), hash)
      ensures qc.Some? <==>
        aggregates && Completes(old(View()), committeeSize, VoteKey(round, block), index, Read(sig), hash)
      ensures qc.Some? <==>
        aggregates && sig.Encoded? && VoteKey(round, block) !in old(sealed) && committeeSize >= 1 &&
        3 * |votes[VoteKey(round, block)]| >= 2 * committeeSize
      ensures qc.Some? ==>
        QCStates(qc.value, VoteKey(round, block), epoch, votes[VoteKey(round, block)], committeeSize)
      ensures qc.Some? ==> qc.value.height == block.Number() && qc.value.round == round && qc.value.epoch == epoch
    {
      var key := VoteKey(round, block);
      if key !in votes {
        votes := votes[key := map[]];
      }
      assert votes == old(votes)[key := VotesOf(old(View()), key)];
      if key in sealed {
        return None;
      }
      if !sig.Encoded? {
        return None;
      }
      var recorded: map<nat, Vote> := votes[key];
      recorded := recorded[index := Vote(hash, sig.element)];
      votes := votes[key := recorded];
      MajorityIsIntegral(|votes[key]|, committeeSize);
      if MajorityTwoThird(|votes[key]|, committeeSize) {
        sealed := sealed + {key};
        var bits, msgHash, agg := Aggregate(votes[key], committeeSize);
        if !aggregates {
          return None;
        }
        return Some(QuorumCert(block.Number(), round, epoch, bits, msgHash.value, agg));
      }
      return None;
    }

    method CleanUpTo(blockNum: nat)
      modifies this
      ensures forall k :: k in votes <==> k in old(votes) && k.block.Number() >= blockNum
      ensures votes == Votes.CleanUpTo(old(View()), BlockAge, blockNum).votes
      ensures sealed == Votes.CleanUpTo(old(View()), BlockAge, blockNum).sealed
    {
      var rest := votes.Keys;
      ghost var before := View();
      while rest != {}
        invariant rest <= before.votes.Keys
        invariant votes == map k | k in before.votes && (k in rest || BlockAge(k) >= blockNum) :: before.votes[k]
        invariant sealed == set k | k in before.sealed && (k in rest || !(k in before.votes && BlockAge(k) < blockNum))
        decreases |rest|
      {
        var key :| key in rest;
        rest := rest - {key};
        if key.block.Number() < blockNum {
          votes := votes - {key};
          sealed := sealed - {key};
        }
      }
    }
  }

  // ---------- timeout certificates ----------

  datatype TimeoutCert = TimeoutCert(epoch: nat, round: nat, bits: set<nat>, hash: Hash, agg: multiset<Element>)

  datatype TimeoutKey = TimeoutKey(epoch: nat, round: nat)

  function TimeoutAge(key: TimeoutKey): nat {
    key.epoch
  }

  ghost predicate TCStates(tc: TimeoutCert, key: TimeoutKey, vs: map<nat, Vote>, n: nat) {
    tc.epoch == key.epoch && tc.round == key.round &&
    tc.bits == Fitting(vs.Keys, n) && AggregateOf(vs, tc.agg) && SomeHash(vs, tc.hash)
  }

  class TCVoteManager {
    const committeeSize: nat
    var votes: map<TimeoutKey, map<nat, Vote>>
    var sealed: set<TimeoutKey>

    constructor (committeeSize: nat)
      ensures this.committeeSize == committeeSize && View() == Book(map[], {})
    {
      this.committeeSize := committeeSize;
      votes, sealed := map[], {};
    }

    ghost function View(): Book<TimeoutKey>
      reads this
    {
      Book(votes, sealed)
    }

    method AddVote(index: nat, epoch: nat, round: nat, sig: SigBytes, hash: Hash, aggregates: bool)
        returns (tc: Option<TimeoutCert>)
      modifies this
      ensures View() == Votes.AddVote(old(View()), committeeSize, TimeoutKey(epoch, round), index, Read(sig), hash)
      ensures tc.Some? <==>
        aggregates && Completes(old(View()), committeeSize, TimeoutKey(epoch, round), index, Read(sig), hash)
      ensures tc.Some? <==>
        aggregates && sig.Encoded? && TimeoutKey(epoch, round) !in old(sealed) && committeeSize >= 1 &&
        3 * |votes[TimeoutKey(epoch, round)]| >= 2 * committeeSize
      ensures tc.Some? ==>
        TCStates(tc.value, TimeoutKey(epoch, round), votes[TimeoutKey(epoch, round)], committeeSize)
      ensures tc.Some? ==> tc.value.epoch == epoch && tc.value.round == round
    {
      var key := TimeoutKey(epoch, round);
      if key !in votes {
        votes := votes[key := map[]];
      }
      assert votes == old(votes)[key := VotesOf(old(View()), key)];
      if key in sealed {
        return None;
      }
      if !sig.Encoded? {
        return None;
      }
      var recorded: map<nat, Vote> := votes[key];
      recorded := recorded[index := Vote(hash, sig.element)];
      votes := votes[key := recorded];
      MajorityIsIntegral(|votes[key]|, committeeSize);
      if MajorityTwoThird(|votes[key]|, committeeSize) {
        sealed := sealed + {key};
        var bits, msgHash, agg := Aggregate(votes[key], committeeSize);
        if !aggregates {
          return None;
        }
        return Some(TimeoutCert(epoch, round, bits, msgHash.value, agg));
      }
      return None;
    }

    method CleanUpTo(epoch: nat)
      modifies this
      ensures forall k :: k in votes <==> k in old(votes) && k.epoch >= epoch
      ensures votes == Votes.CleanUpTo(old(View()), TimeoutAge, epoch).votes
      ensures sealed == Votes.CleanUpTo(old(View()), TimeoutAge, epoch).sealed
    {
      var rest := votes.Keys;
      ghost var before := View();
      while rest != {}
        invariant rest <= before.votes.Keys
        invariant votes == map k | k in before.votes && (k in rest || TimeoutAge(k) >= epoch) :: before.votes[k]
        invariant sealed == set k | k in before.sealed && (k in rest || !(k in before.votes && TimeoutAge(k) < epoch))
        decreases |rest|
      {
        var key :| key in rest;
        rest := rest - {key};
        if key.epoch < epoch {
          votes := votes - {key};
          sealed := sealed - {key};
        }
      }
    }
  }

  // ---------- verification ----------

  predicate VerifiesQC(b: Option<Block>, qc: QuorumCert, n: nat) {
    b.Some? &&
    ((b.value.Number() == qc.height && b.value.Number() <= 1) ||
     (qc.hash == VoteHash(b.value) && MajorityTwoThird(|qc.bits|, n) &&
      ThresholdVerify(qc.agg, qc.hash, Marked(qc.bits, n))))
  }

  method VerifyQC(b: Option<Block>, qc: QuorumCert, n: nat) returns (valid: bool)
    ensures valid <==> VerifiesQC(b, qc, n)
  {
    if b.None? {
      return false;
    }
    if b.value.Number() == qc.height && (b.value.Number() == 0 || b.value.Number() == 1) {
      return true;
    }
    if qc.hash != VoteHash(b.value) {
      return false;
    }
    if !MajorityTwoThird(|qc.bits|, n) {
      return false;
    }
    var pubkeys: seq<nat> := [];
    for index := 0 to n
      invariant pubkeys == Marked(qc.bits, index)
    {
      if index in qc.bits {
        pubkeys := pubkeys + [index];
      }
    }
    return ThresholdVerify(qc.agg, qc.hash, pubkeys);
  }

  predicate VerifiesTC(tc: Option<TimeoutCert>, round: nat, curEpoch: nat, n: nat) {
    tc.Some? && tc.value.epoch == curEpoch && tc.value.round == round &&
    tc.value.hash == TimeoutHash(curEpoch, round) && MajorityTwoThird(|tc.value.bits|, n) &&
    ThresholdVerify(tc.value.agg, tc.value.hash, Marked(tc.value.bits, n))
  }

  method VerifyTC(tc: Option<TimeoutCert>, round: nat, curEpoch: nat, n: nat) returns (valid: bool)
    ensures valid <==> VerifiesTC(tc, round, curEpoch, n)
  {
    if tc.None? {
      return false;
    }
    var voteHash := TimeoutHash(tc.value.epoch, tc.value.round);
    var pubkeys: seq<nat> := [];
    if tc.value.epoch != curEpoch || tc.value.round != round {
      return false;
    }
    if tc.value.hash != voteHash {
      return false;
    }
    if !MajorityTwoThird(|tc.value.bits|, n) {
      return false;
    }
    for index := 0 to n
      invariant pubkeys == Marked(tc.value.bits, index)
    {
      if index in tc.value.bits {
        pubkeys := pubkeys + [index];
      }
    }
    return ThresholdVerify(tc.value.agg, tc.value.hash, pubkeys);
  }

  // ---------- issued certificates verify ----------

  /** Every readable vote offered on `key` is a committee member's signature of `hash`. */
  predicate ProperEvents<Key(==)>(es: seq<BookEvent<Key>>, key: Key, n: nat, hash: Hash) {
    forall k :: 0 <= k < |es| && es[k].Add? && es[k].key == key && es[k].sig.Some? ==>
      es[k].index < n && es[k].hash == hash && es[k].sig.value == Signed(es[k].index, hash)
  }

  lemma {:induction false} ProperRecords<Key>(n: nat, age: Key -> nat, es: seq<BookEvent<Key>>, key: Key, hash: Hash)
    requires ProperEvents(es, key, n, hash)
    ensures ProperVotes(VotesOf(BookRun(n, age, es), key), n, hash)
  {
    if es != [] {
      ProperRecords(n, age, es[..|es| - 1], key, hash);
      var e := es[|es| - 1];
    }
  }

  /** Everything verification needs to know about a certificate issued after `es`. */
  lemma IssuedFromProperVotes<Key>(n: nat, age: Key -> nat, es: seq<BookEvent<Key>>, e: BookEvent<Key>, key: Key, hash: Hash)
    requires Issues(n, age, es, e, key) && ProperEvents(es + [e], key, n, hash)
    ensures var book := BookRun(n, age, es + [e]);
      key in book.votes && book.votes[key] != map[] && ProperVotes(book.votes[key], n, hash) &&
      Fitting(book.votes[key].Keys, n) == book.votes[key].Keys == Voters(age, es + [e], key) &&
      MajorityTwoThird(|book.votes[key].Keys|, n)
  {
    IssuedFromVoters(n, age, es, e, key);
    ProperRecords(n, age, es + [e], key, hash);
    var vs := BookRun(n, age, es + [e]).votes[key];
    MajorityIsIntegral(|Voters(age, es + [e], key)|, n);
    assert Fitting(vs.Keys, n) == vs.Keys;
    assert vs.Keys != {};
  }

  /** Over every run of the block vote manager: a certificate built from proper votes on the
      block's hash passes the check its receivers make, and marks exactly the voters. */
  lemma IssuedQCVerifies(n: nat, es: seq<BookEvent<VoteKey>>, e: BookEvent<VoteKey>, key: VoteKey, epoch: nat, qc: QuorumCert)
    requires Issues(n, BlockAge, es, e, key) && ProperEvents(es + [e], key, n, VoteHash(key.block))
    requires key in BookRun(n, BlockAge, es + [e]).votes
    requires QCStates(qc, key, epoch, BookRun(n, BlockAge, es + [e]).votes[key], n)
    ensures VerifiesQC(Some(key.block), qc, n) && qc.bits == Voters(BlockAge, es + [e], key)
  {
    IssuedFromProperVotes(n, BlockAge, es, e, key, VoteHash(key.block));
    ProperVotesVerify(BookRun(n, BlockAge, es + [e]).votes[key], n, VoteHash(key.block), qc.agg);
  }

  lemma IssuedTCVerifies(n: nat, es: seq<BookEvent<TimeoutKey>>, e: BookEvent<TimeoutKey>, key: TimeoutKey, tc: TimeoutCert)
    requires Issues(n, TimeoutAge, es, e, key) && ProperEvents(es + [e], key, n, TimeoutHash(key.epoch, key.round))
    requires key in BookRun(n, TimeoutAge, es + [e]).votes
    requires TCStates(tc, key, BookRun(n, TimeoutAge, es + [e]).votes[key], n)
    ensures VerifiesTC(Some(tc), key.round, key.epoch, n) && tc.bits == Voters(TimeoutAge, es + [e], key)
  {
    IssuedFromProperVotes(n, TimeoutAge, es, e, key, TimeoutHash(key.epoch, key.round));
    ProperVotesVerify(BookRun(n, TimeoutAge, es + [e]).votes[key], n, TimeoutHash(key.epoch, key.round), tc.agg);
  }

  // ---------- which hash an issued certificate carries ----------

  lemma SomeOrder(keys: set<nat>) returns (order: seq<nat>)
    ensures Visits(order, keys)
  {
    order := [];
    var rest := keys;
    assert keys - rest == {};
    while rest != {}
      invariant rest <= keys && Visits(order, keys - rest)
      decreases rest
    {
      var index :| index in rest;
      VisitOneMore(order, keys, rest, index);
      order, rest := order + [index], rest - {index};
    }
    assert keys - {} == keys;
  }

  /** The product of the votes exists. */
  lemma SomeAggregate(vs: map<nat, Vote>) returns (agg: multiset<Element>)
    ensures AggregateOf(vs, agg)
  {
    var order := SomeOrder(vs.Keys);
    VisitsAggregate(vs, order, vs.Keys);
    agg := multiset(SigsOf(vs, order));
    AggregateAll(vs, agg);
  }

  /** Over every run of the block vote manager: a certificate for votes on a block carries the hash
      of that block, in whatever order the votes are visited, exactly when the last vote of every
      voter does. */
  lemma IssuedNamesIff(n: nat, es: seq<BookEvent<VoteKey>>, e: BookEvent<VoteKey>, key: VoteKey, epoch: nat)
    requires Issues(n, BlockAge, es, e, key) && key in BookRun(n, BlockAge, es + [e]).votes
    ensures (forall qc ::
        QCStates(qc, key, epoch, BookRun(n, BlockAge, es + [e]).votes[key], n) ==> qc.hash == VoteHash(key.block)) <==>
      forall i :: i in Voters(BlockAge, es + [e], key) ==> LastHash(BlockAge, es + [e], key, i) == Some(VoteHash(key.block))
  {
    IssuedFromVoters(n, BlockAge, es, e, key);
    var vs := BookRun(n, BlockAge, es + [e]).votes[key];
    forall i | i in vs
      ensures LastHash(BlockAge, es + [e], key, i) == Some(vs[i].hash)
    {
      IssuedHash(n, BlockAge, es, e, key, i);
    }
    if i :| i in vs && vs[i].hash != VoteHash(key.block) {
      var agg := SomeAggregate(vs);
      var qc := QuorumCert(key.block.Number(), key.round, epoch, Fitting(vs.Keys, n), vs[i].hash, agg);
      assert QCStates(qc, key, epoch, vs, n);
    }
  }

  /** What honest validators send: each its own signature of the block it votes on, once it made
      it. Nothing is known of the votes of the others but their index. */
  predicate HonestEvents(c: Network.Config, sigs: seq<Network.Sig>, es: seq<BookEvent<VoteKey>>, key: VoteKey) {
    forall k :: 0 <= k < |es| && es[k].Add? && es[k].key == key && es[k].sig.Some? ==>
      es[k].index < c.n &&
      (c.Honest(es[k].index) ==> es[k].hash == VoteHash(key.block) && Network.Sig(es[k].index, key.block) in sigs)
  }

  predicate HonestVotes(c: Network.Config, sigs: seq<Network.Sig>, vs: map<nat, Vote>, block: Block) {
    forall i :: i in vs ==>
      i < c.n && (c.Honest(i) ==> vs[i].hash == VoteHash(block) && Network.Sig(i, block) in sigs)
  }

  lemma {:induction false} HonestRecords(c: Network.Config, sigs: seq<Network.Sig>, es: seq<BookEvent<VoteKey>>, key: VoteKey)
    requires HonestEvents(c, sigs, es, key)
    ensures HonestVotes(c, sigs, VotesOf(BookRun(c.n, BlockAge, es), key), key.block)
  {
    if es != [] {
      HonestRecords(c, sigs, es[..|es| - 1], key);
      var e := es[|es| - 1];
    }
  }

  /** Over every run of the block vote manager an issued certificate is one that the network model
      lets a replica collect. */
  lemma IssuedIsCollected(c: Network.Config, sigs: seq<Network.Sig>, es: seq<BookEvent<VoteKey>>, e: BookEvent<VoteKey>,
                          key: VoteKey, epoch: nat, qc: QuorumCert)
    requires Issues(c.n, BlockAge, es, e, key) && HonestEvents(c, sigs, es + [e], key) && qc.hash.VoteHash?
    requires key in BookRun(c.n, BlockAge, es + [e]).votes
    requires QCStates(qc, key, epoch, BookRun(c.n, BlockAge, es + [e]).votes[key], c.n)
    ensures Network.Collected(c, sigs, Plain(qc), key.block, key.round)
  {
    IssuedFromVoters(c.n, BlockAge, es, e, key);
    HonestRecords(c, sigs, es + [e], key);
    var vs := BookRun(c.n, BlockAge, es + [e]).votes[key];
    MajorityIsIntegral(|vs.Keys|, c.n);
    assert Fitting(vs.Keys, c.n) == vs.Keys;
    var i :| i in vs && vs[i].hash == qc.hash;
    assert i in qc.bits;
  }

  /** An issued certificate guarantees, whatever was signed so far, that every voter signed its hash
      exactly when the votes hold every voter's signature of that hash; proper votes do. */
  lemma FullySignedIff(c: Network.Config, vs: map<nat, Vote>, qc: QuorumCert)
    requires IsQuorum(vs.Keys, c.n) && qc.bits == vs.Keys && AggregateOf(vs, qc.agg) && qc.hash.VoteHash?
    ensures (forall sigs :: Unforgeable(sigs, qc.agg) ==> Network.FullySigned(c, sigs, Plain(qc))) <==>
      forall i :: i in vs ==> Signed(i, qc.hash) in qc.agg
    ensures ProperVotes(vs, c.n, qc.hash) ==> forall i :: i in vs ==> Signed(i, qc.hash) in qc.agg
  {
    if i :| i in vs && Signed(i, qc.hash) !in qc.agg {
      var sigs := SigsIn(qc.agg);
      assert Unforgeable(sigs, qc.agg) && Network.Sig(i, qc.hash.block) !in sigs;
      assert !Network.FullySigned(c, sigs, Plain(qc));
    }
    if ProperVotes(vs, c.n, qc.hash) {
      forall i | i in vs
        ensures Signed(i, qc.hash) in qc.agg
      {
        assert i in Holders(vs, Signed(i, qc.hash));
      }
    }
  }

  /** The signatures of blocks in an aggregate. */
  lemma SigsIn(agg: multiset<Element>) returns (sigs: seq<Network.Sig>)
    ensures forall i, b :: Network.Sig(i, b) in sigs <==> Signed(i, VoteHash(b)) in agg
  {
    sigs := [];
    var rest := agg;
    while |rest| > 0
      invariant rest <= agg
      invariant forall i, b :: Network.Sig(i, b) in sigs ==> Signed(i, VoteHash(b)) in agg
      invariant forall i, b :: Signed(i, VoteHash(b)) in agg ==> Network.Sig(i, b) in sigs || Signed(i, VoteHash(b)) in rest
      decreases |rest|
    {
      var e :| e in rest;
      if e.Signed? && e.hash.VoteHash? {
        sigs := sigs + [Network.Sig(e.signer, e.hash.block)];
      }
      rest := rest - multiset{e};
    }
  }

  // ---------- what verification proves ----------

  /** Signatures of blocks come from their signers. */
  ghost predicate Unforgeable(sigs: seq<Network.Sig>, agg: multiset<Element>) {
    forall i, b :: Signed(i, VoteHash(b)) in agg ==> Network.Sig(i, b) in sigs
  }

  /** The certificate as the protocol model sees it. */
  function Plain(qc: QuorumCert): Drafts.QC
    requires qc.hash.VoteHash?
  {
    Drafts.QC(qc.height, qc.round, qc.hash.block, qc.bits)
  }

  /** A verified certificate satisfies the network's check on the signatures made. */
  lemma VerifiedMeansSigned(c: Network.Config, sigs: seq<Network.Sig>, b: Block, qc: QuorumCert)
    requires VerifiesQC(Some(b), qc, c.n) && qc.hash.VoteHash? && Unforgeable(sigs, qc.agg)
    ensures Network.VerifyQC(c, sigs, b, Plain(qc))
  {
    if !(b.Number() == qc.height && b.Number() <= 1) {
      forall i | i in qc.bits && i < c.n
        ensures Network.Sig(i, b) in sigs
      {
        VerifiedSignatures(qc.agg, qc.hash, qc.bits, c.n, i);
      }
    }
  }

  /** Above height 1 a verified certificate stands for a quorum of signers when its marked
      committee members alone pass the threshold. */
  lemma VerifiedIsCertified(c: Network.Config, sigs: seq<Network.Sig>, b: Block, qc: QuorumCert)
    requires VerifiesQC(Some(b), qc, c.n) && b.Number() > 1 && Unforgeable(sigs, qc.agg)
    requires MajorityTwoThird(|qc.bits * Committee(c.n)|, c.n)
    ensures Network.Certified(c, sigs, b)
  {
    VerifiedMeansSigned(c, sigs, b, qc);
    Network.FullySignedIsCertified(c, sigs, Drafts.QC(2, qc.round, b, qc.bits * Committee(c.n)));
  }

  /** And only then: otherwise the signatures in it may be all there are. */
  lemma VerifiedIsCertifiedIff(c: Network.Config, b: Block, qc: QuorumCert)
    requires VerifiesQC(Some(b), qc, c.n) && b.Number() > 1
    ensures (forall sigs :: Unforgeable(sigs, qc.agg) ==> Network.Certified(c, sigs, b)) <==>
      MajorityTwoThird(|qc.bits * Committee(c.n)|, c.n)
  {
    if MajorityTwoThird(|qc.bits * Committee(c.n)|, c.n) {
      forall sigs | Unforgeable(sigs, qc.agg)
        ensures Network.Certified(c, sigs, b)
      {
        VerifiedIsCertified(c, sigs, b, qc);
      }
    } else {
      var sigs := Network.MarkedSigs(qc.bits, b, c.n);
      forall i, other | Signed(i, VoteHash(other)) in qc.agg
        ensures Network.Sig(i, other) in sigs
      {
        MarkedSignatures(qc.bits, c.n, qc.hash, Signed(i, VoteHash(other)));
      }
      assert Network.Signers(c, sigs, b) == qc.bits * Committee(c.n);
      assert Unforgeable(sigs, qc.agg) && !Network.Certified(c, sigs, b);
    }
  }

  // ---------- what verification of a timeout certificate proves ----------

  /** The aggregate is the product of one signature of `hash` by each marked committee member, and
      of nothing else. */
  ghost predicate ExactlySigned(agg: multiset<Element>, hash: Hash, bits: set<nat>, n: nat) {
    forall e :: agg[e] == if e.Signed? && e.hash == hash && e.signer in bits && e.signer < n then 1 else 0
  }

  lemma ThresholdIff(agg: multiset<Element>, hash: Hash, bits: set<nat>, n: nat)
    ensures ThresholdVerify(agg, hash, Marked(bits, n)) <==>
      ExactlySigned(agg, hash, bits, n) && exists i :: i in bits && i < n
  {
    forall e
      ensures SignedBy(Marked(bits, n), hash)[e] ==
        if e.Signed? && e.hash == hash && e.signer in bits && e.signer < n then 1 else 0
    {
      MarkedSignatures(bits, n, hash, e);
    }
    MarkedSome(bits, n);
    if i :| i in bits && i < n {
      MarkedMembers(bits, n, i);
      if ExactlySigned(agg, hash, bits, n) {
        assert agg == SignedBy(Marked(bits, n), hash);
      }
    }
  }

  lemma {:induction false} MarkedSome(bits: set<nat>, n: nat)
    ensures Marked(bits, n) != [] ==> exists i :: i in bits && i < n
  {
    if n > 0 && n - 1 !in bits {
      MarkedSome(bits, n - 1);
    }
  }

  /** A certificate for a block is accepted exactly when the block is one of the first two, of the
      certificate's height, or the hash is the block's, the bits are two thirds of the committee,
      and the aggregate is exactly the marked members' signatures of it. */
  lemma VerifiesQCIff(b: Block, qc: QuorumCert, n: nat)
    ensures VerifiesQC(Some(b), qc, n) <==>
      (b.Number() <= 1 && qc.height == b.Number()) ||
      (qc.hash == VoteHash(b) && n >= 1 && 3 * |qc.bits| >= 2 * n && ExactlySigned(qc.agg, VoteHash(b), qc.bits, n) &&
       exists i :: i in qc.bits && i < n)
  {
    MajorityIsIntegral(|qc.bits|, n);
    ThresholdIff(qc.agg, qc.hash, qc.bits, n);
  }

  /** A timeout certificate is accepted exactly when it is for this epoch and round, carries their
      hash, marks two thirds of the committee, and its aggregate is exactly the marked members'
      signatures of that hash. */
  lemma VerifiesTCIff(tc: TimeoutCert, round: nat, curEpoch: nat, n: nat)
    ensures VerifiesTC(Some(tc), round, curEpoch, n) <==>
      tc.epoch == curEpoch && tc.round == round && tc.hash == TimeoutHash(curEpoch, round) &&
      n >= 1 && 3 * |tc.bits| >= 2 * n && ExactlySigned(tc.agg, TimeoutHash(curEpoch, round), tc.bits, n) &&
      exists i :: i in tc.bits && i < n
  {
    MajorityIsIntegral(|tc.bits|, n);
    ThresholdIff(tc.agg, tc.hash, tc.bits, n);
  }

  /** The committee members whose signature of `hash` is in the aggregate. */
  function SignersIn(agg: multiset<Element>, hash: Hash, n: nat): set<nat> {
    set i | i in Committee(n) && Signed(i, hash) in agg
  }

  /** A verified timeout certificate holds the signature of every marked member, and stands for a
      quorum of signers of that epoch and round exactly when the bits within the committee are a
      majority. */
  lemma VerifiedTCIsSignedIff(tc: TimeoutCert, round: nat, curEpoch: nat, n: nat)
    requires VerifiesTC(Some(tc), round, curEpoch, n)
    ensures forall i :: i in tc.bits && i < n ==> Signed(i, TimeoutHash(curEpoch, round)) in tc.agg
    ensures IsQuorum(SignersIn(tc.agg, TimeoutHash(curEpoch, round), n), n) <==>
      3 * |tc.bits * Committee(n)| >= 2 * n
  {
    VerifiesTCIff(tc, round, curEpoch, n);
    assert SignersIn(tc.agg, TimeoutHash(curEpoch, round), n) == tc.bits * Committee(n);
    MajorityIsIntegral(|tc.bits * Committee(n)|, n);
  }

  /** With a longer bit array the vote count includes bits no key is checked for: one
      signature out of four is enough here. */
  lemma LongBitArrayVerifies() returns (b: Block, qc: QuorumCert)
    ensures b.Number() > 1 && VerifiesQC(Some(b), qc, 4)
    ensures forall i, h :: Signed(i, h) in qc.agg ==> i == 0
    ensures !MajorityTwoThird(1, 4)
  {
    b := Block(Block(Genesis, MBlock, [], 0), MBlock, [], 0);
    assert b.parent.Number() == 1;
    qc := QuorumCert(2, 0, 0, {0, 4, 5}, VoteHash(b), multiset{Signed(0, VoteHash(b))});
    assert |{0, 4, 5}| == 3;
    MajorityIsIntegral(3, 4);
    MajorityIsIntegral(1, 4);
    assert Marked({0, 4, 5}, 1) == [0];
    assert Marked({0, 4, 5}, 2) == [0];
    assert Marked({0, 4, 5}, 3) == [0];
    assert Marked({0, 4, 5}, 4) == [0];
    assert [0][..0] == [] && SignedBy([0], VoteHash(b)) == multiset{Signed(0, VoteHash(b))};
  }
}
