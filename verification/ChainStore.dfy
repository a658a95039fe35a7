/** Adding blocks to the stored chain: which block is best, and the flat number index with its
    cache. */
module ChainStore {
  import opened Blocks
  import opened Headers

  /** Stored headers, best block and its certificate, the number-to-id index and the cache in
      front of it. */
  datatype State = State(store: Store, best: Header, bestQC: nat, index: map<nat, Id>, cache: map<nat, Id>)

  /** Higher score wins; on equal scores the smaller id. */
  predicate Better(h: Header, best: Header) {
    h.score > best.score || (h.score == best.score && Less(h.id, best.id))
  }

  predicate Finalized(c: State, id: Id) {
    id.num <= c.best.id.num
  }

  /** The id is stored, and this is not a repeat of a block just above the best one. */
  predicate Known(c: State, h: Header) {
    h.id in c.store &&
    var saved := c.store[h.id];
    !(saved.parent == h.parent && saved.sig == h.sig && saved.rest == h.rest && Finalized(c, saved.parent)) || Finalized(c, h.id)
  }

  datatype Verdict = Exists | ParentMissing | NoFork | NoEscort | NewBest | Aside

  predicate Valid(c: State) {
    Sound(c.store) && Formed(c.best) && c.best.id.num < TWO32 - 1 &&
    forall n :: n in c.cache ==> n in c.index && c.index[n] == c.cache[n]
  }

  predicate Fits(h: Header) {
    Formed(h) && h.id.num < TWO32 - 1
  }

  /** A chain opened on an empty database: genesis is stored, best and indexed. */
  function Opened(genesis: Header, qc: nat): State {
    State(map[genesis.id := genesis], genesis, qc, map[0 := genesis.id], map[0 := genesis.id])
  }

  function Judge(c: State, h: Header, escort: Option<nat>): Verdict
    requires Valid(c) && Fits(h)
  {
    if Known(c, h) then Exists
    else if h.parent !in c.store then ParentMissing
    else if !Better(h, c.best) then Aside
    else if !Meet(c.store, h, c.best) then NoFork
    else if escort.None? then NoEscort
    else NewBest
  }

  /** Both the index and the cache get the number; the cache may drop anything. */
  function Put(c: State, id: Id, evicted: set<nat>): State {
    c.(index := c.index[id.num := id], cache := c.cache[id.num := id] - evicted)
  }

  /** The index is written before the fork is looked for, and the best block is set before the
      missing certificate is noticed; the block itself is stored only at the end. */
  function AddBlock(c: State, h: Header, escort: Option<nat>, evicted: set<nat>): State
    requires Valid(c) && Fits(h)
  {
    match Judge(c, h, escort)
    case Exists => c
    case ParentMissing => c
    case NoFork => Put(c, h.id, evicted)
    case NoEscort => Put(c, h.id, evicted).(best := h)
    case NewBest => Put(c, h.id, evicted).(best := h, bestQC := escort.value, store := c.store[h.id := h])
    case Aside => Put(c, h.id, evicted).(store := c.store[h.id := h])
  }

  function Lookup(c: State, n: nat): Option<Id> {
    if n in c.cache then Some(c.cache[n]) else if n in c.index then Some(c.index[n]) else None
  }

  /** A lookup that misses the cache fills it. */
  function Touch(c: State, n: nat, evicted: set<nat>): State {
    if n !in c.cache && n in c.index then c.(cache := c.cache[n := c.index[n]] - evicted) else c
  }

  datatype Event = Add(h: Header, escort: Option<nat>, evicted: set<nat>) | Look(n: nat, evicted: set<nat>)

  predicate FitsEvent(e: Event) {
    e.Add? ==> Fits(e.h)
  }

  function Step(c: State, e: Event): State
    requires Valid(c) && FitsEvent(e)
  {
    match e
    case Add(h, escort, evicted) => AddBlock(c, h, escort, evicted)
    case Look(n, evicted) => Touch(c, n, evicted)
  }

  lemma StepValid(c: State, e: Event)
    requires Valid(c) && FitsEvent(e)
    ensures Valid(Step(c, e))
  {
  }

  predicate AllFit(es: seq<Event>) {
    forall k :: 0 <= k < |es| ==> FitsEvent(es[k])
  }

  function Run(c: State, es: seq<Event>): (r: State)
    requires Valid(c) && AllFit(es)
    ensures Valid(r)
  {
    if es == [] then c
    else
      var before, e := Run(c, es[..|es| - 1]), es[|es| - 1];
      StepValid(before, e);
      Step(before, e)
  }

  /** Under any eviction, in any run, the cache never changes what a lookup returns. */
  lemma LookupIsIndexed(c: State, es: seq<Event>, n: nat)
    requires Valid(c) && AllFit(es)
    ensures var r := Run(c, es); Lookup(r, n) == if n in r.index then Some(r.index[n]) else None
  {
  }

  // ---------- fork choice ----------

  /** The headers whose turn came to be compared with the best one. */
  function Compared(c: State, es: seq<Event>): set<Header>
    requires Valid(c) && AllFit(es)
  {
    if es == [] then {}
    else
      var init, e := es[..|es| - 1], es[|es| - 1];
      Compared(c, init) +
      if e.Add? && Judge(Run(c, init), e.h, e.escort) in {NoEscort, NewBest, Aside} then {e.h} else {}
  }

  predicate Maximum(best: Header, all: set<Header>) {
    best in all && forall x :: x in all ==> !Better(x, best)
  }

  /** `x` has a lower score, or the same score and an id that is not smaller, by number and then by
      hash. */
  predicate NotAbove(x: Header, best: Header) {
    x.score < best.score ||
    (x.score == best.score && (best.id.num < x.id.num || (best.id.num == x.id.num && best.id.hash <= x.id.hash)))
  }

  /** Over any run, failures included, the best block is the maximum of the first one and every
      block compared with it since: none of them has a higher score, or the same score and a
      smaller id. */
  lemma {:induction false} BestIsMaximum(c: State, es: seq<Event>)
    requires Valid(c) && AllFit(es)
    ensures Maximum(Run(c, es).best, {c.best} + Compared(c, es))
    ensures forall x :: x in {c.best} + Compared(c, es) ==> NotAbove(x, Run(c, es).best)
  {
    if es != [] {
      var init, e := es[..|es| - 1], es[|es| - 1];
      BestIsMaximum(c, init);
      MaximumStep(Run(c, init), e, {c.best} + Compared(c, init));
    }
  }

  /** A block that is added becomes best exactly when its score is higher, or the same with an id
      smaller by number or then by hash; otherwise the best block stays. */
  lemma AddedIsBestIff(c: State, h: Header, escort: Option<nat>, evicted: set<nat>)
    requires Valid(c) && Fits(h) && Judge(c, h, escort) in {NewBest, Aside}
    ensures AddBlock(c, h, escort, evicted).best == h <==>
      h == c.best || h.score > c.best.score ||
      (h.score == c.best.score && (h.id.num < c.best.id.num || (h.id.num == c.best.id.num && h.id.hash < c.best.id.hash)))
    ensures AddBlock(c, h, escort, evicted).best in {h, c.best}
    ensures h.id in AddBlock(c, h, escort, evicted).store && AddBlock(c, h, escort, evicted).store[h.id] == h
  {
  }

  /** It is added exactly when its parent is stored, it is new, or repeats with its parent, signature,
      receipts and time a stored block just above the best one, and, when its score and id put it
      first, it shares an ancestor with the best block and brings a certificate. */
  lemma AddsIff(c: State, h: Header, escort: Option<nat>)
    requires Valid(c) && Fits(h)
    ensures Judge(c, h, escort) in {NewBest, Aside} <==>
      h.parent in c.store &&
      (h.id !in c.store ||
       (h.id.num > c.best.id.num && c.store[h.id].parent.num <= c.best.id.num &&
        c.store[h.id].parent == h.parent && c.store[h.id].sig == h.sig && c.store[h.id].rest == h.rest)) &&
      (NotAbove(h, c.best) || (escort.Some? && Meet(c.store, h, c.best)))
  {
  }

  /** What an add leaves behind, whether or not it succeeds: one whose parent is missing or that is
      known already changes nothing; any other takes over its number in index and cache; the best
      block changes as soon as a fork is found, the best certificate only when there is one, and the
      block is stored only on success. */
  lemma AddEffect(c: State, h: Header, escort: Option<nat>, evicted: set<nat>)
    requires Valid(c) && Fits(h)
    ensures var u, verdict := AddBlock(c, h, escort, evicted), Judge(c, h, escort);
      if verdict in {Exists, ParentMissing} then u == c
      else
        u.index == c.index[h.id.num := h.id] && u.cache == c.cache[h.id.num := h.id] - evicted &&
        u.best == (if !NotAbove(h, c.best) && Meet(c.store, h, c.best) then h else c.best) &&
        u.bestQC == (if verdict == NewBest then escort.value else c.bestQC) &&
        u.store == (if verdict in {NewBest, Aside} then c.store[h.id := h] else c.store)
    ensures Judge(c, h, escort) == NewBest <==>
      Judge(c, h, escort) in {NewBest, Aside} && !NotAbove(h, c.best)
    ensures Judge(c, h, escort) == ParentMissing ==> h.parent !in c.store
    ensures Judge(c, h, escort) == Exists ==> h.id in c.store
  {
  }

  /** A lookup that is not evicted at once is answered from the cache the next time. */
  lemma TouchCaches(c: State, n: nat, evicted: set<nat>)
    requires Valid(c)
    ensures var u := Touch(c, n, evicted);
      u == c.(cache := u.cache) && (n in c.index && n !in evicted ==> n in u.cache && u.cache[n] == c.index[n]) &&
      (forall k :: k in u.cache ==> k in c.index && u.cache[k] == c.index[k])
  {
  }

  /** A new chain holds genesis alone, as best block, with its certificate, indexed and cached at 0. */
  lemma OpenedHolds(genesis: Header, qc: nat)
    ensures var c := Opened(genesis, qc);
      c.best == genesis && c.bestQC == qc && c.store.Keys == {genesis.id} && c.store[genesis.id] == genesis &&
      c.index.Keys == {0} && Lookup(c, 0) == Some(genesis.id) && 0 in c.cache
  {
  }

  lemma MaximumStep(c: State, e: Event, all: set<Header>)
    requires Valid(c) && FitsEvent(e) && Maximum(c.best, all)
    ensures Maximum(Step(c, e).best,
      all + if e.Add? && Judge(c, e.h, e.escort) in {NoEscort, NewBest, Aside} then {e.h} else {})
  {
  }

  predicate Accepts(c: State, e: Event)
    requires Valid(c) && FitsEvent(e)
  {
    e.Add? ==> Judge(c, e.h, e.escort) in {NewBest, Aside}
  }

  /** Every AddBlock of the run succeeded. */
  predicate Succeeds(c: State, es: seq<Event>)
    requires Valid(c) && AllFit(es)
  {
    es == [] || (Succeeds(c, es[..|es| - 1]) && Accepts(Run(c, es[..|es| - 1]), es[|es| - 1]))
  }

  function AddedBy(es: seq<Event>): set<Header> {
    set k | 0 <= k < |es| && es[k].Add? :: es[k].h
  }

  lemma AddedBySnoc(es: seq<Event>)
    requires es != []
    ensures var e := es[|es| - 1];
      AddedBy(es) == AddedBy(es[..|es| - 1]) + if e.Add? then {e.h} else {}
  {
    var init, e := es[..|es| - 1], es[|es| - 1];
    forall h | h in AddedBy(es)
      ensures h in AddedBy(init) + if e.Add? then {e.h} else {}
    {
      var k :| 0 <= k < |es| && es[k].Add? && es[k].h == h;
      if k < |init| {
        assert init[k] == es[k];
      }
    }
    forall h | h in AddedBy(init)
      ensures h in AddedBy(es)
    {
      var k :| 0 <= k < |init| && init[k].Add? && init[k].h == h;
      assert es[k] == init[k];
    }
  }

  function Ids(hs: set<Header>): set<Id> {
    set h | h in hs :: h.id
  }

  lemma {:induction false} SuccessComparesAll(c: State, es: seq<Event>)
    requires Valid(c) && AllFit(es) && Succeeds(c, es)
    ensures Compared(c, es) == AddedBy(es)
  {
    if es != [] {
      SuccessComparesAll(c, es[..|es| - 1]);
      AddedBySnoc(es);
    }
  }

  lemma AcceptedIsStored(c: State, e: Event)
    requires Valid(c) && FitsEvent(e) && Accepts(c, e)
    ensures Step(c, e).store.Keys == c.store.Keys + Ids(if e.Add? then {e.h} else {})
  {
  }

  lemma IdsUnion(a: set<Header>, b: set<Header>)
    ensures Ids(a + b) == Ids(a) + Ids(b)
  {
  }

  lemma {:induction false} SuccessStoresAll(c: State, es: seq<Event>)
    requires Valid(c) && AllFit(es) && Succeeds(c, es)
    ensures Run(c, es).store.Keys == c.store.Keys + Ids(AddedBy(es))
  {
    if es != [] {
      var init, e := es[..|es| - 1], es[|es| - 1];
      SuccessStoresAll(c, init);
      AddedBySnoc(es);
      AcceptedIsStored(Run(c, init), e);
      var last := if e.Add? then {e.h} else {};
      IdsUnion(AddedBy(init), last);
    }
  }

  /** Two nodes that add the same blocks, each in an order of its own that succeeds, end with the
      same blocks stored and the same best block. */
  lemma SameBlocksSameBest(c: State, es: seq<Event>, fs: seq<Event>)
    requires Valid(c) && AllFit(es) && AllFit(fs)
    requires Succeeds(c, es) && Succeeds(c, fs) && AddedBy(es) == AddedBy(fs)
    ensures Run(c, es).best.id == Run(c, fs).best.id && Run(c, es).best.score == Run(c, fs).best.score
    ensures Run(c, es).store.Keys == Run(c, fs).store.Keys
  {
    SuccessComparesAll(c, es);
    SuccessComparesAll(c, fs);
    SuccessStoresAll(c, es);
    SuccessStoresAll(c, fs);
    BestIsMaximum(c, es);
    BestIsMaximum(c, fs);
  }
}
