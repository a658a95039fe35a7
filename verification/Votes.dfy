/** Collecting votes into certificates: what a vote manager remembers, when it issues a
    certificate, and when that certificate passes verification. */
module Votes {
  import opened Quorum
  import opened Blocks

  /** Voting hashes of blocks and of timeouts never collide. */
  datatype Hash = VoteHash(block: Block) | TimeoutHash(epoch: nat, round: nat)

  /** A signature: validator `signer` signed `hash`, or not a signature of anyone. */
  datatype Element = Signed(signer: nat, hash: Hash) | Junk(n: nat)

  datatype Vote = Vote(hash: Hash, sig: Element)

  /** The votes per key and the keys for which a certificate was issued. */
  datatype Book<!Key> = Book(votes: map<Key, map<nat, Vote>>, sealed: set<Key>)

  function VotesOf<Key>(book: Book<Key>, key: Key): map<nat, Vote> {
    if key in book.votes then book.votes[key] else map[]
  }

  /** Adding a vote whose signature was read as `sig`, if it could be read. */
  function AddVote<Key>(book: Book<Key>, n: nat, key: Key, index: nat, sig: Option<Element>, hash: Hash): Book<Key> {
    if key in book.sealed || sig.None? then book.(votes := book.votes[key := VotesOf(book, key)])
    else
      var vs := VotesOf(book, key)[index := Vote(hash, sig.value)];
      Book(book.votes[key := vs], if MajorityTwoThird(|vs|, n) then book.sealed + {key} else book.sealed)
  }

  /** The addition brings the votes on its key to a majority for the first time. */
  predicate Completes<Key>(book: Book<Key>, n: nat, key: Key, index: nat, sig: Option<Element>, hash: Hash) {
    key !in book.sealed && sig.Some? &&
    MajorityTwoThird(|VotesOf(book, key)[index := Vote(hash, sig.value)]|, n)
  }

  /** Forgetting every key older than `limit`. */
  function CleanUpTo<Key>(book: Book<Key>, age: Key -> nat, limit: nat): (r: Book<Key>)
  {
    Book(map k | k in book.votes && age(k) >= limit :: book.votes[k],
         set k | k in book.sealed && !(k in book.votes && age(k) < limit))
  }

  // ---------- runs ----------

  datatype BookEvent<Key> =
    | Add(key: Key, index: nat, sig: Option<Element>, hash: Hash)
    | Clean(limit: nat)

  function BookStep<Key>(n: nat, age: Key -> nat, book: Book<Key>, e: BookEvent<Key>): Book<Key> {
    match e
    case Add(key, index, sig, hash) => AddVote(book, n, key, index, sig, hash)
    case Clean(limit) => CleanUpTo(book, age, limit)
  }

  /** The manager after the events `es`, oldest first. */
  function BookRun<Key>(n: nat, age: Key -> nat, es: seq<BookEvent<Key>>): Book<Key> {
    if es == [] then Book(map[], {})
    else BookStep(n, age, BookRun(n, age, es[..|es| - 1]), es[|es| - 1])
  }

  predicate Forgets<Key>(age: Key -> nat, e: BookEvent<Key>, key: Key) {
    e.Clean? && age(key) < e.limit
  }

  /** The validators whose readable vote on `key` was offered since `key` was last
      forgotten. */
  function Voters<Key(==)>(age: Key -> nat, es: seq<BookEvent<Key>>, key: Key): set<nat> {
    if es == [] then {}
    else
      var before := Voters(age, es[..|es| - 1], key);
      var e := es[|es| - 1];
      if Forgets(age, e, key) then {}
      else if e.Add? && e.key == key && e.sig.Some? then before + {e.index}
      else before
  }

  /** Event `e` completes a certificate for `key` after `es`. */
  predicate Issues<Key(==)>(n: nat, age: Key -> nat, es: seq<BookEvent<Key>>, e: BookEvent<Key>, key: Key) {
    e.Add? && e.key == key && Completes(BookRun(n, age, es), n, key, e.index, e.sig, e.hash)
  }

  /** `key` is unsealed with exactly the signers `vs`, or sealed with a majority. */
  predicate Holds<Key>(n: nat, book: Book<Key>, key: Key, vs: set<nat>) {
    (key !in book.sealed ==> VotesOf(book, key).Keys == vs) &&
    (key in book.sealed ==> key in book.votes && MajorityTwoThird(|book.votes[key]|, n))
  }

  lemma AddHolds<Key>(n: nat, book: Book<Key>, key: Key, vs: set<nat>, key': Key, index: nat, sig: Option<Element>, hash: Hash)
    requires Holds(n, book, key, vs)
    ensures Holds(n, AddVote(book, n, key', index, sig, hash), key,
      if key' == key && sig.Some? then vs + {index} else vs)
  {
    if key' == key && sig.Some? && key !in book.sealed {
      assert VotesOf(book, key)[index := Vote(hash, sig.value)].Keys == vs + {index};
    }
  }

  lemma CleanHolds<Key>(n: nat, book: Book<Key>, age: Key -> nat, limit: nat, key: Key, vs: set<nat>)
    requires Holds(n, book, key, vs)
    ensures Holds(n, CleanUpTo(book, age, limit), key, if age(key) < limit then {} else vs)
  {
  }

  /** Until a certificate is issued the recorded signers are exactly those who voted since
      the last cleanup; sealed keys hold a majority and are never unknown. */
  lemma {:induction false} Recorded<Key>(n: nat, age: Key -> nat, es: seq<BookEvent<Key>>, key: Key)
    ensures Holds(n, BookRun(n, age, es), key, Voters(age, es, key))
  {
    if es != [] {
      var init, e := es[..|es| - 1], es[|es| - 1];
      Recorded(n, age, init, key);
      match e
      case Add(k, index, sig, hash) => AddHolds(n, BookRun(n, age, init), key, Voters(age, init, key), k, index, sig, hash);
      case Clean(limit) => CleanHolds(n, BookRun(n, age, init), age, limit, key, Voters(age, init, key));
    }
  }

  lemma CompletedVotes<Key>(n: nat, book: Book<Key>, key: Key, vs: set<nat>, index: nat, sig: Option<Element>, hash: Hash)
    requires Holds(n, book, key, vs) && Completes(book, n, key, index, sig, hash)
    ensures var after := AddVote(book, n, key, index, sig, hash).votes;
      key in after && after[key].Keys == vs + {index} && 3 * |vs + {index}| >= 2 * n
  {
    var votes := VotesOf(book, key)[index := Vote(hash, sig.value)];
    assert votes.Keys == vs + {index};
    assert |votes| == |votes.Keys|;
    MajorityIsIntegral(|votes|, n);
  }

  /** Every certificate marks exactly the distinct voters since the last cleanup, at least
      two thirds of the committee. */
  lemma IssuedFromVoters<Key>(n: nat, age: Key -> nat, es: seq<BookEvent<Key>>, e: BookEvent<Key>, key: Key)
    requires Issues(n, age, es, e, key)
    ensures var vs := BookRun(n, age, es + [e]).votes;
      key in vs && vs[key].Keys == Voters(age, es + [e], key) && 3 * |Voters(age, es + [e], key)| >= 2 * n
  {
    Recorded(n, age, es, key);
    assert (es + [e])[..|es|] == es;
    CompletedVotes(n, BookRun(n, age, es), key, Voters(age, es, key), e.index, e.sig, e.hash);
  }

  lemma {:induction false} VotersGrow<Key>(age: Key -> nat, es: seq<BookEvent<Key>>, key: Key, more: BookEvent<Key>)
    requires !Forgets(age, more, key)
    ensures |Voters(age, es, key)| <= |Voters(age, es + [more], key)|
  {
    assert (es + [more])[..|es|] == es;
    SubsetSize(Voters(age, es, key), Voters(age, es + [more], key));
  }

  /** A key is sealed exactly while its distinct voters since the last cleanup are at least two
      thirds of the committee. */
  lemma {:induction false} SealedIff<Key>(n: nat, age: Key -> nat, es: seq<BookEvent<Key>>, key: Key)
    requires n >= 1
    ensures key in BookRun(n, age, es).sealed <==> 3 * |Voters(age, es, key)| >= 2 * n
  {
    if es != [] {
      var init, e := es[..|es| - 1], es[|es| - 1];
      assert init + [e] == es;
      SealedIff(n, age, init, key);
      Recorded(n, age, init, key);
      if Forgets(age, e, key) {
        CleanUpForgetsExactly(n, age, init, e.limit, key);
      } else {
        VotersGrow(age, init, key, e);
        if e.Add? && e.key == key && e.sig.Some? && key !in BookRun(n, age, init).sealed {
          var votes := VotesOf(BookRun(n, age, init), key)[e.index := Vote(e.hash, e.sig.value)];
          assert votes.Keys == Voters(age, es, key) && |votes| == |votes.Keys|;
          MajorityIsIntegral(|votes|, n);
        }
      }
    }
  }

  /** For every committee and every run: a certificate is issued exactly by the readable vote that
      brings the distinct voters since the last cleanup to two thirds of the committee. */
  lemma IssuesIff<Key>(n: nat, age: Key -> nat, es: seq<BookEvent<Key>>, e: BookEvent<Key>, key: Key)
    requires n >= 1
    ensures Issues(n, age, es, e, key) <==>
      e.Add? && e.key == key && e.sig.Some? &&
      3 * |Voters(age, es, key)| < 2 * n <= 3 * |Voters(age, es + [e], key)|
  {
    assert (es + [e])[..|es|] == es;
    SealedIff(n, age, es, key);
    Recorded(n, age, es, key);
    if e.Add? && e.key == key && e.sig.Some? && key !in BookRun(n, age, es).sealed {
      var votes := VotesOf(BookRun(n, age, es), key)[e.index := Vote(e.hash, e.sig.value)];
      assert votes.Keys == Voters(age, es + [e], key) && |votes| == |votes.Keys|;
      MajorityIsIntegral(|votes|, n);
    }
  }

  /** The hash of the last readable vote validator `i` offered on `key` since `key` was last
      forgotten. */
  function LastHash<Key(==)>(age: Key -> nat, es: seq<BookEvent<Key>>, key: Key, i: nat): Option<Hash> {
    if es == [] then None
    else
      var e := es[|es| - 1];
      if Forgets(age, e, key) then None
      else if e.Add? && e.key == key && e.sig.Some? && e.index == i then Some(e.hash)
      else LastHash(age, es[..|es| - 1], key, i)
  }

  predicate HoldsHash<Key>(book: Book<Key>, key: Key, i: nat, hash: Option<Hash>) {
    hash == if i in VotesOf(book, key) then Some(VotesOf(book, key)[i].hash) else None
  }

  /** Until a certificate is issued the recorded votes carry the hashes offered last. */
  lemma {:induction false} RecordedHash<Key>(n: nat, age: Key -> nat, es: seq<BookEvent<Key>>, key: Key, i: nat)
    requires key !in BookRun(n, age, es).sealed
    ensures HoldsHash(BookRun(n, age, es), key, i, LastHash(age, es, key, i))
  {
    if es != [] {
      var init, e := es[..|es| - 1], es[|es| - 1];
      if !Forgets(age, e, key) {
        RecordedHash(n, age, init, key, i);
      }
    }
  }

  /** The votes an issued certificate is made from carry the hashes offered last. */
  lemma IssuedHash<Key>(n: nat, age: Key -> nat, es: seq<BookEvent<Key>>, e: BookEvent<Key>, key: Key, i: nat)
    requires Issues(n, age, es, e, key)
    ensures HoldsHash(BookRun(n, age, es + [e]), key, i, LastHash(age, es + [e], key, i))
  {
    assert (es + [e])[..|es|] == es;
    RecordedHash(n, age, es, key, i);
  }

  lemma {:induction false} StaysSealed<Key>(n: nat, age: Key -> nat, es: seq<BookEvent<Key>>, more: seq<BookEvent<Key>>, key: Key)
    requires key in BookRun(n, age, es).sealed
    requires forall k :: 0 <= k < |more| ==> !Forgets(age, more[k], key)
    ensures key in BookRun(n, age, es + more).sealed
  {
    if more == [] {
      assert es + more == es;
    } else {
      var init := more[..|more| - 1];
      StaysSealed(n, age, es, init, key);
      assert (es + more)[..|es + more| - 1] == es + init;
      assert (es + more)[|es + more| - 1] == more[|more| - 1];
    }
  }

  /** Between two certificates for one key lies a cleanup that forgot it. */
  lemma OneCertificateBetweenCleanups<Key>(n: nat, age: Key -> nat, es: seq<BookEvent<Key>>, e: BookEvent<Key>,
                                           between: seq<BookEvent<Key>>, e': BookEvent<Key>, key: Key)
    requires Issues(n, age, es, e, key) && Issues(n, age, es + [e] + between, e', key)
    ensures exists k :: 0 <= k < |between| && Forgets(age, between[k], key)
  {
    assert (es + [e])[..|es|] == es;
    assert key in BookRun(n, age, es + [e]).sealed;
    if forall k :: 0 <= k < |between| ==> !Forgets(age, between[k], key) {
      StaysSealed(n, age, es + [e], between, key);
      assert false;
    }
  }

  /** A cleanup forgets exactly the older keys. */
  lemma CleanUpForgetsExactly<Key>(n: nat, age: Key -> nat, es: seq<BookEvent<Key>>, limit: nat, key: Key)
    ensures var before := BookRun(n, age, es);
      var after := CleanUpTo(before, age, limit);
      (age(key) < limit ==> key !in after.votes && key !in after.sealed) &&
      (age(key) >= limit ==>
        (key in after.votes <==> key in before.votes) && VotesOf(after, key) == VotesOf(before, key) &&
        (key in after.sealed <==> key in before.sealed))
  {
    Recorded(n, age, es, key);
  }
}
