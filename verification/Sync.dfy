/** Finding the last block two nodes agree on: an exponential step back from the head, then a
    binary search forward. */
module Sync {
  import opened Blocks
  import opened Headers

  const TWO31: nat := 0x8000_0000

  /** What comparing one block number with the peer gives. */
  datatype Probe = Same | Different | Failed

  type Peer = nat -> Probe

  /** The two chains agree on exactly the numbers up to `top`. */
  ghost predicate AgreeUpTo(peer: Peer, head: nat, top: nat) {
    top <= head && forall n :: 0 <= n <= head ==> peer(n) == if n <= top then Same else Different
  }

  /** Every probe in the range is answered. */
  ghost predicate Answers(peer: Peer, start: nat, end: nat) {
    forall n :: start <= n <= end ==> peer(n) != Failed
  }

  // ---------- the step back ----------

  datatype Seek = Running(backward: nat) | Found(num: nat) | Broken

  /** One turn of the loop; doubling is in 32 bits. */
  function SeekStep(peer: Peer, head: nat, s: Seek): Seek {
    match s
    case Running(b) =>
      if b >= head then Found(0)
      else (match peer(head - b)
            case Failed => Broken
            case Same => Found(head - b)
            case Different => Running(Doubled(b)))
    case _ => s
  }

  function SeekAfter(peer: Peer, head: nat, turns: nat): Seek {
    if turns == 0 then Running(0) else SeekStep(peer, head, SeekAfter(peer, head, turns - 1))
  }

  function Pow2(k: nat): (r: nat)
    ensures r > 0
  {
    if k == 0 then 1 else 2 * Pow2(k - 1)
  }

  /** The distances tried: 0, 1, 2, 4 and so on up to 2^31, after which 32 bits wrap to 0. */
  function Distance(k: nat): nat {
    if k == 0 then 0 else Pow2(k - 1)
  }

  const TRIES: nat := 33

  predicate StopsAt(peer: Peer, head: nat, backward: nat) {
    backward >= head || peer(head - backward) != Different
  }

  /** One of the 33 distances gives a reason to stop. */
  ghost predicate Stops(peer: Peer, head: nat) {
    exists k :: 0 <= k < TRIES && StopsAt(peer, head, Distance(k))
  }

  /** None of the first `k` distances did. */
  ghost predicate NotYet(peer: Peer, head: nat, k: nat) {
    forall j :: 0 <= j < k ==> !StopsAt(peer, head, Distance(j))
  }

  lemma StopsLater(peer: Peer, head: nat, k: nat)
    requires Stops(peer, head) && NotYet(peer, head, k)
    ensures k < TRIES
  {
  }

  lemma {:induction false} Pow2Bound(k: nat)
    requires k <= 31
    ensures Pow2(k) <= TWO31 && (k < 31 ==> 2 * Pow2(k) <= TWO31)
    ensures k == 31 ==> Pow2(k) == TWO31
  {
    assert Pow2(8) == 0x100 && Pow2(12) == 0x1000 && Pow2(16) == 0x1_0000 && Pow2(20) == 0x10_0000;
    assert Pow2(24) == 0x100_0000 && Pow2(28) == 0x1000_0000 && Pow2(31) == TWO31;
    Pow2Grows(k, 31);
    if k < 31 {
      Pow2Grows(k + 1, 31);
    }
  }

  lemma {:induction false} Pow2Grows(j: nat, k: nat)
    requires j <= k
    ensures Pow2(j) <= Pow2(k)
  {
    if j < k {
      Pow2Grows(j, k - 1);
    }
  }

  function Doubled(backward: nat): nat {
    if backward == 0 then 1 else backward * 2 % TWO32
  }

  lemma NextDistance(k: nat)
    requires k < TRIES
    ensures Doubled(Distance(k)) == if k + 1 < TRIES then Distance(k + 1) else 0
  {
    if k > 0 {
      Pow2Bound(k - 1);
    }
  }

  lemma TryAfter(turns: nat) returns (k: nat)
    requires turns > 0
    ensures k == (turns - 1) % TRIES && k < turns && k < TRIES && (k + 1) % TRIES == turns % TRIES
  {
    k := (turns - 1) % TRIES;
  }

  lemma {:induction false} StillRunning(peer: Peer, head: nat, turns: nat)
    requires NotYet(peer, head, turns) || !Stops(peer, head)
    ensures SeekAfter(peer, head, turns) == Running(Distance(turns % TRIES))
  {
    if turns > 0 {
      StillRunning(peer, head, turns - 1);
      var k := TryAfter(turns);
      assert !StopsAt(peer, head, Distance(k));
      NextDistance(k);
    }
  }

  /** The step back ends, within 33 turns, exactly when one of its 33 distances gives a reason;
      otherwise it tries the same distances for ever. */
  lemma SeekEndsIff(peer: Peer, head: nat)
    ensures Stops(peer, head) <==> exists turns :: !SeekAfter(peer, head, turns).Running?
    ensures Stops(peer, head) ==> !SeekAfter(peer, head, TRIES).Running?
  {
    if Stops(peer, head) {
      var k := FirstStop(peer, head);
      StillRunning(peer, head, k);
      SeekEndsHere(peer, head, k);
    } else {
      forall turns
        ensures SeekAfter(peer, head, turns).Running?
      {
        StillRunning(peer, head, turns);
      }
    }
  }

  lemma FirstStop(peer: Peer, head: nat) returns (k: nat)
    requires Stops(peer, head)
    ensures k < TRIES && StopsAt(peer, head, Distance(k)) && NotYet(peer, head, k)
  {
    k := 0;
    while !StopsAt(peer, head, Distance(k))
      invariant k < TRIES && NotYet(peer, head, k)
      decreases TRIES - k
    {
      k := k + 1;
      StopsLater(peer, head, k);
    }
  }

  lemma {:induction false} SeekStays(peer: Peer, head: nat, n: nat, m: nat)
    requires n <= m && !SeekAfter(peer, head, n).Running?
    ensures SeekAfter(peer, head, m) == SeekAfter(peer, head, n)
  {
    if n < m {
      SeekStays(peer, head, n, m - 1);
    }
  }

  /** Up to 2^31 the distance reaches the head before it wraps. */
  lemma LowHeadStops(peer: Peer, head: nat)
    requires head <= TWO31
    ensures Stops(peer, head)
  {
    Pow2Bound(31);
    assert StopsAt(peer, head, Distance(32));
  }

  /** On chains that agree on exactly a prefix the loop ends exactly when the agreed part comes
      within 2^31 of the head. */
  lemma SeekEndsOnPrefixIff(peer: Peer, head: nat, top: nat)
    requires AgreeUpTo(peer, head, top)
    ensures Stops(peer, head) <==> head - top <= TWO31
  {
    Pow2Bound(31);
    if head - top <= TWO31 {
      assert StopsAt(peer, head, Distance(32));
    } else {
      forall k | 0 <= k < TRIES
        ensures !StopsAt(peer, head, Distance(k))
      {
        if k > 0 {
          Pow2Bound(k - 1);
        }
      }
    }
  }

  /** Two chains with only genesis in common and a head of 2^31 + 1: the loop never ends. */
  lemma SeekNeverEnds() returns (peer: Peer, head: nat)
    ensures AgreeUpTo(peer, head, 0) && head == TWO31 + 1
    ensures forall turns :: SeekAfter(peer, head, turns).Running?
  {
    peer, head := (n: nat) => if n == 0 then Same else Different, TWO31 + 1;
    SeekEndsOnPrefixIff(peer, head, 0);
    SeekEndsIff(peer, head);
  }

  function Log2(n: nat): nat {
    if n < 2 then 0 else 1 + Log2(n / 2)
  }

  lemma {:induction false} Log2Grows(m: nat, n: nat)
    requires m <= n
    ensures Log2(m) <= Log2(n)
    decreases n
  {
    if m >= 2 {
      Log2Grows(m / 2, n / 2);
    }
  }

  lemma {:induction false} Log2OfPow2(k: nat)
    ensures Log2(Pow2(k)) == k
  {
    if k > 0 {
      Log2OfPow2(k - 1);
    }
  }

  lemma ProbesSoFar(head: nat, k: nat)
    requires head > 0 && (k >= 2 ==> Pow2(k - 2) < head)
    ensures k <= Log2(head) + 2
    ensures Distance(k) < head ==> k <= Log2(head) + 1
  {
    if k >= 2 {
      Log2OfPow2(k - 2);
      Log2Grows(Pow2(k - 2), head);
    }
    if k >= 1 && Distance(k) < head {
      Log2OfPow2(k - 1);
      Log2Grows(Pow2(k - 1), head);
    }
  }

  lemma SeekEndsHere(peer: Peer, head: nat, k: nat)
    requires k < TRIES && SeekAfter(peer, head, k) == Running(Distance(k)) && StopsAt(peer, head, Distance(k))
    ensures SeekAfter(peer, head, TRIES) == SeekStep(peer, head, Running(Distance(k)))
  {
    SeekStays(peer, head, k + 1, TRIES);
  }

  lemma GoesOn(peer: Peer, head: nat, k: nat)
    requires Stops(peer, head) && NotYet(peer, head, k) && k < TRIES && !StopsAt(peer, head, Distance(k))
    requires SeekAfter(peer, head, k) == Running(Distance(k))
    ensures k + 1 < TRIES && NotYet(peer, head, k + 1)
    ensures Distance(k + 1) == Doubled(Distance(k))
    ensures SeekAfter(peer, head, k + 1) == Running(Distance(k + 1))
    ensures k >= 1 ==> Pow2(k - 1) < head
  {
    StopsLater(peer, head, k + 1);
    NextDistance(k);
  }

  /** The loop, with a count of its probes. */
  method FastSeek(peer: Peer, head: nat) returns (r: Option<nat>, probes: nat)
    requires Stops(peer, head)
    ensures SeekAfter(peer, head, TRIES) == match r case Some(num) => Found(num) case None => Broken
    ensures r.Some? ==> r.value == 0 || (r.value <= head && peer(r.value) == Same)
    ensures r.None? ==> !Answers(peer, 0, head)
    ensures head > 0 ==> probes <= Log2(head) + 2
  {
    var backward := 0;
    probes := 0;
    ghost var k := 0;
    while true
      invariant k < TRIES && backward == Distance(k) && probes == k
      invariant SeekAfter(peer, head, k) == Running(backward)
      invariant NotYet(peer, head, k)
      invariant k >= 2 ==> Pow2(k - 2) < head
      decreases TRIES - k
    {
      if head > 0 {
        ProbesSoFar(head, k);
      }
      if backward >= head {
        SeekEndsHere(peer, head, k);
        return Some(0), probes;
      }
      probes := probes + 1;
      match peer(head - backward) {
        case Failed =>
          assert !Answers(peer, 0, head);
          SeekEndsHere(peer, head, k);
          return None, probes;
        case Same =>
          SeekEndsHere(peer, head, k);
          return Some(head - backward), probes;
        case Different =>
      }
      GoesOn(peer, head, k);
      backward := Doubled(backward);
      k := k + 1;
    }
  }

  // ---------- the search forward ----------

  datatype Search = Search(result: Option<nat>, probes: nat)

  function Probed(s: Search): Search {
    Search(s.result, s.probes + 1)
  }

  /** The midpoint in 32 bits. It lies in the range unless the sum wraps, and then below it. */
  function Mid(start: nat, end: nat): (mid: nat)
    requires start < end < TWO32
    ensures mid < TWO31
    ensures start + end < TWO32 ==> start <= mid < end
    ensures start + end < TWO32 ==> end - mid == (end - start + 1) / 2 && mid - start == (end - start) / 2
    ensures start + end >= TWO32 ==> mid < start
  {
    (if start + end < TWO32 then start + end else start + end - TWO32) / 2
  }

  /** Binary search. */
  function Find(peer: Peer, start: nat, end: nat, ancestor: nat): Search
    requires start <= end <= TWO31
    decreases end - start
  {
    if start == end then
      match peer(start)
      case Failed => Search(None, 1)
      case Same => Search(Some(start), 1)
      case Different => Search(Some(ancestor), 1)
    else
      var mid := Mid(start, end);
      match peer(mid)
      case Failed => Search(None, 1)
      case Same => Probed(Find(peer, mid + 1, end, mid))
      case Different => if mid > start then Probed(Find(peer, start, mid - 1, ancestor)) else Search(Some(ancestor), 1)
  }

  /** The search returns the last agreeing number of its range, or the ancestor it was given when
      the range has none. */
  lemma {:induction false} FindIsLast(peer: Peer, head: nat, top: nat, start: nat, end: nat, ancestor: nat)
    requires AgreeUpTo(peer, head, top) && start <= end <= head <= TWO31
    ensures Find(peer, start, end, ancestor).result ==
      Some(if top < start then ancestor else if top <= end then top else end)
    decreases end - start
  {
    if start < end {
      var mid := Mid(start, end);
      if mid <= top {
        FindIsLast(peer, head, top, mid + 1, end, mid);
      } else if mid > start {
        FindIsLast(peer, head, top, start, mid - 1, ancestor);
      }
    }
  }

  lemma Log2OfHalf(part: nat, size: nat)
    requires size >= 2 && part <= size / 2
    ensures Log2(part) + 1 <= Log2(size)
  {
    Log2Grows(part, size / 2);
  }

  /** Whatever the peer answers, the number of probes is logarithmic in the range. */
  lemma {:induction false} FindProbes(peer: Peer, start: nat, end: nat, ancestor: nat)
    requires start <= end <= TWO31
    ensures Find(peer, start, end, ancestor).probes <= Log2(end - start + 1) + 1
    decreases end - start
  {
    if start < end {
      var mid := Mid(start, end);
      match peer(mid) {
        case Failed =>
        case Same =>
          FindProbes(peer, mid + 1, end, mid);
          Log2OfHalf(end - mid, end - start + 1);
        case Different =>
          if mid > start {
            FindProbes(peer, start, mid - 1, ancestor);
            Log2OfHalf(mid - start, end - start + 1);
          }
      }
    }
  }

  /** The search fails only on a probe that failed. */
  lemma {:induction false} FindAnswers(peer: Peer, start: nat, end: nat, ancestor: nat)
    requires start <= end <= TWO31 && Answers(peer, start, end)
    ensures Find(peer, start, end, ancestor).result.Some?
    decreases end - start
  {
    if start < end {
      var mid := Mid(start, end);
      FindAnswers(peer, mid + 1, end, mid);
      if mid > start {
        FindAnswers(peer, start, mid - 1, ancestor);
      }
    }
  }

  lemma {:induction false} FindInRange(peer: Peer, start: nat, end: nat, ancestor: nat)
    requires start <= end <= TWO31
    ensures var r := Find(peer, start, end, ancestor).result;
      r.Some? ==> r.value == ancestor || (start <= r.value <= end && peer(r.value) == Same)
    decreases end - start
  {
    if start < end {
      var mid := Mid(start, end);
      FindInRange(peer, mid + 1, end, mid);
      if mid > start {
        FindInRange(peer, start, mid - 1, ancestor);
      }
    }
  }

  // ---------- the whole search ----------

  lemma SearchFromSeek(peer: Peer, head: nat, start: nat)
    requires start <= head <= TWO31 && (start == 0 || peer(start) == Same)
    ensures forall top: nat :: AgreeUpTo(peer, head, top) ==> Find(peer, start, head, 0).result == Some(top)
    ensures Answers(peer, 0, head) ==> Find(peer, start, head, 0).result.Some?
    ensures Find(peer, start, head, 0).result.Some? ==> Find(peer, start, head, 0).result.value <= head
    ensures Find(peer, start, head, 0).probes <= Log2(head + 1) + 1
  {
    forall top: nat | AgreeUpTo(peer, head, top)
      ensures Find(peer, start, head, 0).result == Some(top)
    {
      FindIsLast(peer, head, top, start, head, 0);
    }
    if Answers(peer, 0, head) {
      FindAnswers(peer, start, head, 0);
    }
    FindInRange(peer, start, head, 0);
    FindProbes(peer, start, head, 0);
    Log2Grows(head - start + 1, head + 1);
  }

  /** When the chains agree on exactly a prefix that contains genesis, the result is its last
      number; the number of probes is logarithmic whatever the peer answers. */
  method FindCommonAncestor(peer: Peer, head: nat) returns (r: Option<nat>, probes: nat)
    requires head <= TWO31
    ensures forall top: nat :: AgreeUpTo(peer, head, top) ==> r == Some(top)
    ensures Answers(peer, 0, head) ==> r.Some?
    ensures r.Some? ==> r.value <= head
    ensures probes <= 2 * Log2(head + 1) + 3
  {
    if head == 0 {
      return Some(0), 0;
    }
    LowHeadStops(peer, head);
    var seek, first := FastSeek(peer, head);
    Log2Grows(head, head + 1);
    if seek.None? {
      return None, first;
    }
    if seek.value == head {
      return Some(head), first;
    }
    SearchFromSeek(peer, head, seek.value);
    var search := Find(peer, seek.value, head, 0);
    return search.result, first + search.probes;
  }

  // ---------- the search forward above 2^31 ----------

  datatype Hunt = Hunting(start: nat, end: nat, ancestor: nat) | Done(result: Option<nat>)

  predicate InRange(h: Hunt) {
    h.Hunting? ==> h.start <= h.end < TWO32
  }

  /** One call of the search, for every 32-bit range. */
  function HuntStep(peer: Peer, h: Hunt): (r: Hunt)
    requires InRange(h)
    ensures InRange(r)
  {
    match h
    case Done(_) => h
    case Hunting(start, end, ancestor) =>
      if start == end then
        match peer(start)
        case Failed => Done(None)
        case Same => Done(Some(start))
        case Different => Done(Some(ancestor))
      else
        var mid := Mid(start, end);
        match peer(mid)
        case Failed => Done(None)
        case Same => Hunting(mid + 1, end, mid)
        case Different => if mid > start then Hunting(start, mid - 1, ancestor) else Done(Some(ancestor))
  }

  function HuntAfter(peer: Peer, h: Hunt, turns: nat): (r: Hunt)
    requires InRange(h)
    ensures InRange(r)
    decreases turns
  {
    if turns == 0 then h else HuntAfter(peer, HuntStep(peer, h), turns - 1)
  }

  ghost predicate EndsWith(peer: Peer, h: Hunt, result: Option<nat>)
    requires InRange(h)
  {
    exists turns: nat :: HuntAfter(peer, h, turns) == Done(result)
  }

  lemma EndsIfNextEnds(peer: Peer, h: Hunt, result: Option<nat>)
    requires InRange(h) && EndsWith(peer, HuntStep(peer, h), result)
    ensures EndsWith(peer, h, result)
  {
    var turns: nat :| HuntAfter(peer, HuntStep(peer, h), turns) == Done(result);
    assert HuntAfter(peer, h, turns + 1) == Done(result);
  }

  lemma EndsAtOnce(peer: Peer, h: Hunt, result: Option<nat>)
    requires InRange(h) && HuntStep(peer, h) == Done(result)
    ensures EndsWith(peer, h, result)
  {
    assert HuntAfter(peer, HuntStep(peer, h), 0) == Done(result);
    EndsIfNextEnds(peer, h, result);
  }

  /** Up to 2^31 the calls end with the result of the binary search. */
  lemma {:induction false} FindEndsHunt(peer: Peer, start: nat, end: nat, ancestor: nat)
    requires start <= end <= TWO31
    ensures EndsWith(peer, Hunting(start, end, ancestor), Find(peer, start, end, ancestor).result)
    decreases end - start
  {
    var h, result := Hunting(start, end, ancestor), Find(peer, start, end, ancestor).result;
    var next := HuntStep(peer, h);
    if next.Done? {
      EndsAtOnce(peer, h, result);
    } else {
      assert result == Find(peer, next.start, next.end, next.ancestor).result;
      FindEndsHunt(peer, next.start, next.end, next.ancestor);
      EndsIfNextEnds(peer, h, result);
    }
  }

  /** The last agreed number lies in the range, or is the ancestor just below it. */
  predicate Hunted(h: Hunt, head: nat, top: nat) {
    match h
    case Done(result) => result == Some(top)
    case Hunting(start, end, ancestor) =>
      top <= end <= head && (start <= top || (start == top + 1 && ancestor == top))
  }

  /** Whatever wraps, a search that ends gives the last agreed number. */
  lemma {:induction false} HuntIsRight(peer: Peer, head: nat, top: nat, h: Hunt, turns: nat)
    requires AgreeUpTo(peer, head, top) && head < TWO32 && InRange(h) && Hunted(h, head, top)
    ensures Hunted(HuntAfter(peer, h, turns), head, top)
    decreases turns
  {
    if turns > 0 {
      HuntIsRight(peer, head, top, HuntStep(peer, h), turns - 1);
    }
  }

  /** Where the search starts after `k` midpoints that all agree. */
  function Climb(start: nat, head: nat, k: nat): (r: nat)
    requires start < head && TWO31 < head < TWO32
    ensures r < head && (k > 0 ==> r <= TWO31)
  {
    if k == 0 then start else Mid(Climb(start, head, k - 1), head) + 1
  }

  /** The first `k` midpoints agree. */
  ghost predicate Below(start: nat, head: nat, top: nat, k: nat)
    requires start < head && TWO31 < head < TWO32
  {
    forall j :: 0 <= j < k ==> Mid(Climb(start, head, j), head) <= top
  }

  lemma ClimbOnce(peer: Peer, head: nat, top: nat, start: nat, k: nat, ancestor: nat)
    requires AgreeUpTo(peer, head, top) && start < head && TWO31 < head < TWO32
    requires Mid(Climb(start, head, k), head) <= top
    ensures HuntStep(peer, Hunting(Climb(start, head, k), head, ancestor)) ==
      Hunting(Climb(start, head, k + 1), head, Mid(Climb(start, head, k), head))
  {
  }

  /** While no midpoint passes the last agreed number the search goes on. */
  lemma {:induction false} StillHunting(peer: Peer, head: nat, top: nat, start: nat, j: nat, ancestor: nat, turns: nat)
    requires AgreeUpTo(peer, head, top) && start < head && TWO31 < head < TWO32
    requires forall k: nat :: Mid(Climb(start, head, k), head) <= top
    ensures HuntAfter(peer, Hunting(Climb(start, head, j), head, ancestor), turns).Hunting?
    decreases turns
  {
    var at := Climb(start, head, j);
    if turns > 0 {
      ClimbOnce(peer, head, top, start, j, ancestor);
      StillHunting(peer, head, top, start, j + 1, Mid(at, head), turns - 1);
      assert HuntAfter(peer, Hunting(at, head, ancestor), turns) ==
        HuntAfter(peer, HuntStep(peer, Hunting(at, head, ancestor)), turns - 1);
    }
  }

  /** Above 2^31 the search ends exactly when one of the midpoints it climbs by passes the last
      agreed number; no midpoint reaches 2^31. */
  lemma HuntEndsIff(peer: Peer, head: nat, top: nat, start: nat)
    requires AgreeUpTo(peer, head, top) && start <= top < head && TWO31 < head < TWO32
    ensures (exists result :: EndsWith(peer, Hunting(start, head, 0), result)) <==>
      exists k: nat :: Mid(Climb(start, head, k), head) > top
    ensures top >= TWO31 ==> forall turns: nat :: HuntAfter(peer, Hunting(start, head, 0), turns).Hunting?
  {
    if k: nat :| Mid(Climb(start, head, k), head) > top {
      var first := FirstAbove(start, head, top, k);
      var result := HuntEndsAt(peer, head, top, start, first, 0, 0);
    } else {
      forall turns: nat
        ensures HuntAfter(peer, Hunting(start, head, 0), turns).Hunting?
      {
        StillHunting(peer, head, top, start, 0, 0, turns);
      }
    }
  }

  lemma FirstAbove(start: nat, head: nat, top: nat, k: nat) returns (first: nat)
    requires start < head && TWO31 < head < TWO32 && Mid(Climb(start, head, k), head) > top
    ensures Below(start, head, top, first) && Mid(Climb(start, head, first), head) > top
  {
    first := 0;
    while Mid(Climb(start, head, first), head) <= top
      invariant first <= k && Below(start, head, top, first)
      decreases k - first
    {
      first := first + 1;
    }
  }

  lemma {:induction false} HuntEndsAt(peer: Peer, head: nat, top: nat, start: nat, k: nat, j: nat, ancestor: nat)
    returns (result: Option<nat>)
    requires AgreeUpTo(peer, head, top) && start <= top < head && TWO31 < head < TWO32 && j <= k
    requires Below(start, head, top, k) && Mid(Climb(start, head, k), head) > top
    ensures EndsWith(peer, Hunting(Climb(start, head, j), head, ancestor), result)
    decreases k - j
  {
    var h := Hunting(Climb(start, head, j), head, ancestor);
    var mid, next := Mid(h.start, head), HuntStep(peer, h);
    if j < k {
      ClimbOnce(peer, head, top, start, j, ancestor);
      result := HuntEndsAt(peer, head, top, start, k, j + 1, mid);
      EndsIfNextEnds(peer, h, result);
    } else {
      assert k > 0 ==> Mid(Climb(start, head, k - 1), head) <= top;
      assert next == Hunting(h.start, mid - 1, ancestor);
      result := Find(peer, h.start, mid - 1, ancestor).result;
      FindEndsHunt(peer, h.start, mid - 1, ancestor);
      EndsIfNextEnds(peer, h, result);
    }
  }

  // ---------- why chains agree on a prefix ----------

  /** Comparing two trunks number by number; a number either one lacks cannot be compared. */
  function Compare(a: seq<Header>, b: seq<Header>): Peer {
    (n: nat) => if n >= |a| || n >= |b| then Failed else if a[n].id == b[n].id then Same else Different
  }

  predicate ParentLinked(a: seq<Header>) {
    forall k :: 0 < k < |a| ==> a[k].parent == a[k - 1].id
  }

  /** An id fixes the parent of its block. */
  predicate IdsFixParents(a: seq<Header>, b: seq<Header>) {
    forall i, j :: 0 <= i < |a| && 0 <= j < |b| && a[i].id == b[j].id ==> a[i].parent == b[j].parent
  }

  lemma {:induction false} AgreeBelow(a: seq<Header>, b: seq<Header>, n: nat, k: nat)
    requires ParentLinked(a) && ParentLinked(b) && IdsFixParents(a, b)
    requires k <= n < |a| && n < |b| && a[n].id == b[n].id
    ensures a[k].id == b[k].id
    decreases n
  {
    if k < n {
      AgreeBelow(a, b, n - 1, k);
    }
  }

  /** Two trunks over one genesis agree on exactly a prefix. */
  lemma TrunksAgreeOnPrefix(a: seq<Header>, b: seq<Header>, head: nat) returns (top: nat)
    requires ParentLinked(a) && ParentLinked(b) && IdsFixParents(a, b)
    requires head < |a| && head < |b| && a[0].id == b[0].id
    ensures AgreeUpTo(Compare(a, b), head, top)
  {
    top := head;
    while a[top].id != b[top].id
      invariant top <= head && forall n :: top < n <= head ==> a[n].id != b[n].id
      decreases top
    {
      top := top - 1;
    }
    forall n | 0 <= n <= top
      ensures a[n].id == b[n].id
    {
      AgreeBelow(a, b, top, n);
    }
  }

  /** So the search over two such trunks returns the last number they agree on. */
  method FindForkPoint(ours: seq<Header>, theirs: seq<Header>, head: nat) returns (r: Option<nat>)
    requires ParentLinked(ours) && ParentLinked(theirs) && IdsFixParents(ours, theirs)
    requires head < |ours| && head < |theirs| && head <= TWO31 && ours[0].id == theirs[0].id
    ensures r.Some? && r.value <= head && ours[r.value].id == theirs[r.value].id
    ensures forall n :: r.value < n <= head ==> ours[n].id != theirs[n].id
  {
    ghost var top := TrunksAgreeOnPrefix(ours, theirs, head);
    var compare := Compare(ours, theirs);
    var probes;
    r, probes := FindCommonAncestor(compare, head);
    forall n | 0 <= n <= head
      ensures ours[n].id == theirs[n].id <==> n <= top
    {
      assert compare(n) == if n <= top then Same else Different;
    }
  }
}
