/** What happens when a caller does what the calls do not check: chains published in pieces, and
    heads returned that the device does not hold. */
module Misuse {
  import opened Words
  import opened Vring
  import opened Ownership
  import opened Protocol
  import opened Simulation
  import opened Runs
  import opened Calls

  // ----- two states of the abstract queues behind the same indices

  /** Windows behind the same 16-bit indices have the same length. */
  lemma SameWindow(lo: nat, hi: nat, lo': nat, hi': nat)
    requires lo <= hi < lo + W16 && lo' <= hi' < lo' + W16
    requires lo % W16 == lo' % W16 && hi % W16 == hi' % W16
    ensures hi - lo == hi' - lo'
  {
    CounterDistance(lo, hi);
    CounterDistance(lo', hi');
  }

  lemma SameOffset(a: nat, a': nat, k: int)
    requires a % W16 == a' % W16
    ensures (a + k) % W16 == (a' + k) % W16
  {
    var q := a' / W16 - a / W16;
    assert a' + k == (a + k) + q * W16;
    ModShift(a + k, W16, q);
  }

  /** What the invariant says about the lengths of the windows. */
  ghost predicate Sized(s: Sys, v: View) {
    && Waiting(v) && Counters(s, v)
    && |v.free| + (|v.added| - v.taken) <= |s.ring.desc| <= CHAIN_END
    && |v.returned| - v.got + |v.reclaiming| <= |s.ring.desc|
  }

  lemma Sizes(s: Sys, v: View)
    requires Inv(s, v)
    ensures Wf(s) && Sized(s, v)
  {
    Occupancy(s, v);
  }

  /** Positions of the two states that show as the same index. */
  lemma SamePosition(lo: nat, lo': nat, k: int, n: nat)
    requires lo % W16 == lo' % W16 && lo + k >= 0 && lo' + k >= 0 && Pow2(n) && n <= CHAIN_END
    ensures (lo + k) % n == (lo' + k) % n
  {
    SameOffset(lo, lo', k);
    SlotOf(lo + k, n);
    SlotOf(lo' + k, n);
  }

  // ----- single buffers

  /** Without has_next, virtqueue_add_single_buffer is virtqueue_add_buffer of one buffer. */
  lemma SingleIsBuffer(r: Ring, d: Driver, buf: Buf, cookie: nat)
    requires Shaped(r, d) && d.head < |r.desc|
    ensures AddSingle(r, d, buf, cookie, false) == AddBuffer(r, d, [buf], cookie)
  {
    var desc' := r.desc[d.head := WriteLink(r.desc[d.head], [buf], 0)];
    assert WriteChain(desc', r.desc[d.head].next, [buf], 1) == (desc', r.desc[d.head].next);
  }

  lemma LastPosition(s: Sys, v: View, s': Sys, v': View)
    requires Sized(s, v) && |v.free| > 0 && Sized(s', v') && Pow2(|s.ring.desc|)
    requires |s'.ring.desc| == |s.ring.desc| && s'.dev == s.dev && s'.ring.availIdx == Inc(s.ring.availIdx)
    ensures v'.taken < |v'.added| && (|v'.added| - 1) % |s.ring.desc| == Slot(s.ring.availIdx, |s.ring.desc|)
  {
    IncWraps(|v.added|);
    SameWindow(v.taken, |v.added| + 1, v'.taken, |v'.added|);
    SamePosition(|v.added| + 1, |v'.added|, -1, |s.ring.desc|);
    SlotOf(|v.added|, |s.ring.desc|);
  }

  lemma LastWaiting(v: View)
    requires Waiting(v) && v.taken < |v.added|
    ensures v.added[|v.added| - 1] in LiveBag(v)
  {
    assert v.added[v.taken..][|v.added| - 1 - v.taken] == v.added[|v.added| - 1];
  }

  lemma HeadAdded(s: Sys, v: View)
    requires Inv(s, v) && v.taken < |v.added|
    ensures var c := v.added[|v.added| - 1];
            && c in LiveBag(v) && c.idxs != []
            && Head(c) == s.ring.avail[(|v.added| - 1) % |s.ring.desc|]
  {
    LastWaiting(v);
  }

  lemma SingleRefused(s: Sys, v: View, v': View, buf: Buf, cookie: nat)
    requires Inv(s, v) && s.dpc.DriverIdle? && |v.free| > 0 && s.drv.head < |s.ring.desc|
    ensures var (r', d') := AddSingle(s.ring, s.drv, buf, cookie, true);
            !Inv(s.(ring := r', drv := d'), v')
  {
    var (r', d') := AddSingle(s.ring, s.drv, buf, cookie, true);
    var s' := s.(ring := r', drv := d');
    if Inv(s', v') {
      Sizes(s, v);
      Sizes(s', v');
      LastPosition(s, v, s', v');
      HeadAdded(s', v');
      var c := v'.added[|v'.added| - 1];
      Member(s', v', c);
      assert LinkOk(r'.desc, c, 0);
      LinkFlagsBits(true, buf.write);
      LinkFlagsBits(false, c.bufs[0].write);
    }
  }

  /** has_next sets the lowest bit of the flags of the one descriptor and changes nothing else. */
  lemma SingleNextFlag(r: Ring, d: Driver, buf: Buf, cookie: nat)
    requires Shaped(r, d) && d.head < |r.desc|
    ensures var (r0, d0) := AddSingle(r, d, buf, cookie, false);
            var (r1, d1) := AddSingle(r, d, buf, cookie, true);
            var x := r0.desc[d.head];
            x.flags % 2 == 0 && d1 == d0 && r1 == r0.(desc := r0.desc[d.head := x.(flags := x.flags + 1)])
  {
    LinkFlagsBits(false, buf.write);
    FlagBits(LinkFlags(false, buf.write));
    FlagBits(LinkFlags(true, buf.write));
    var (r0, d0) := AddSingle(r, d, buf, cookie, false);
    var x := r0.desc[d.head];
    assert r.desc[d.head := x][d.head := x.(flags := x.flags + 1)] == r.desc[d.head := x.(flags := x.flags + 1)];
  }

  lemma SingleKeeps(s: Sys, v: View, buf: Buf, cookie: nat)
    requires Inv(s, v) && s.dpc.DriverIdle? && |v.free| > 0
    ensures s.drv.head < |s.ring.desc|
    ensures var (r', d') := AddSingle(s.ring, s.drv, buf, cookie, false);
            exists v' :: Inv(s.(ring := r', drv := d'), v')
  {
    AddBufferCall(s, v, [buf], cookie);
    SingleIsBuffer(s.ring, s.drv, buf, cookie);
  }

  /** With has_next the published chain says that it goes on where the free chain goes on:
      after the call the ring stands for some state of the abstract queues exactly when
      has_next is zero. */
  lemma SingleKeepsIff(s: Sys, v: View, buf: Buf, cookie: nat, hasNext: bool)
    requires Inv(s, v) && s.dpc.DriverIdle? && |v.free| > 0
    ensures s.drv.head < |s.ring.desc|
    ensures var (r', d') := AddSingle(s.ring, s.drv, buf, cookie, hasNext);
            (exists v' :: Inv(s.(ring := r', drv := d'), v')) <==> !hasNext
  {
    SingleKeeps(s, v, buf, cookie);
    var (r', d') := AddSingle(s.ring, s.drv, buf, cookie, hasNext);
    if hasNext {
      forall v' ensures !Inv(s.(ring := r', drv := d'), v') {
        if Inv(s.(ring := r', drv := d'), v') { SingleRefused(s, v, v', buf, cookie); }
      }
    }
  }

  /** And it does harm: on a table of two, publishing one buffer with has_next, having it
      returned and getting it back leaves a free chain that runs in a circle. */
  lemma SingleWithNextBreaks(r: Ring)
    requires Fresh(r) && |r.desc| == 2 && r.desc[1].flags == 0
    ensures var s := Start(r);
            var (r1, d1) := AddSingle(s.ring, s.drv, Buf(0, 1, false), 7, true);
            var r2 := AddConsumed(r1, 0, 1).0;
            && NextUsed(r2, d1).id % W16 < 2
            && var (r3, d3, out) := GetBuffer(r2, d1);
            && out == Got(7, 1) && d3.freeCnt == 2 && d3.head == 0
            && r3.desc[0].next == 1 && r3.desc[1].next == 1
  {
    var s := Start(r);
    assert Slot(0, 2) == 0;
    var (r1, d1) := AddSingle(s.ring, s.drv, Buf(0, 1, false), 7, true);
    LinkFlagsBits(true, false);
    assert r1.desc[0].next == 1 && HasNext(r1.desc[0].flags) && r1.desc[1].flags == 0 && !HasNext(0);
    var r2 := AddConsumed(r1, 0, 1).0;
    assert ChainEnd(r2.desc, 1, Minus(0, 1), 1) == (1, Minus(0, 1));
    assert ChainEnd(r2.desc, 0, 0, 2) == (1, Minus(0, 1));
  }

  // ----- heads that are not held

  lemma TwoIn<T>(s: seq<T>, i: nat, j: nat)
    requires i < j < |s|
    ensures multiset{s[i], s[j]} <= multiset(s)
  {
    TakeOut(s, i);
    var rest := s[..i] + s[i + 1..];
    assert rest[j - 1] == s[j] && s[j] in multiset(rest);
  }

  lemma TwoPlaces<T>(s: seq<T>, x: T, y: T) returns (i: nat, j: nat)
    requires multiset{x, y} <= multiset(s)
    ensures i < |s| && j < |s| && i != j && s[i] == x && s[j] == y
  {
    assert x in multiset(s);
    i :| 0 <= i < |s| && s[i] == x;
    TakeOut(s, i);
    var rest := s[..i] + s[i + 1..];
    assert multiset{x} + multiset{y} <= multiset{x} + multiset(rest);
    assert y in multiset(rest);
    var m :| 0 <= m < |rest| && rest[m] == y;
    j := if m < i then m else m + 1;
  }

  /** Two chains in flight, in two places if they are the same. */
  ghost predicate Both(v: View, c1: Chain, c2: Chain)
    requires Waiting(v)
  {
    multiset{c1, c2} <= LiveBag(v)
  }

  /** Chains in flight in two places do not have the same head. */
  lemma OneHead(s: Sys, v: View, c1: Chain, c2: Chain)
    requires Inv(s, v) && Both(v, c1, c2)
    ensures c1.idxs != [] && c2.idxs != [] && Head(c1) != Head(c2)
  {
    LiveIsBag(v);
    Member(s, v, c1);
    Member(s, v, c2);
    var i, j := TwoPlaces(Live(v), c1, c2);
    if Head(c1) == Head(c2) { LiveApart(v.free, Live(v), |s.ring.desc|, i, j, Head(c1)); }
  }

  /** The machine after a call of virtqueue_add_consumed_buffer. */
  function AfterReturn(s: Sys, head: u16, len: u32): Sys
    requires Wf(s)
  {
    s.(ring := AddConsumed(s.ring, head, len).0)
  }

  ghost predicate Returned(s: Sys, v: View, s': Sys, v': View, head: u16, len: u32) {
    && Inv(s, v) && s.vpc.DeviceIdle? && head <= |s.ring.desc|
    && s' == AfterReturn(s, head, len) && Inv(s', v')
  }

  /** The windows of both states: the used queue is one longer, the rest is as before. */
  lemma ReturnWindows(s: Sys, v: View, s': Sys, v': View)
    requires Sized(s, v) && Sized(s', v') && s'.dev == s.dev && s'.drv == s.drv
    requires s'.ring.availIdx == s.ring.availIdx && s'.ring.usedIdx == Inc(s.ring.usedIdx)
    requires |s'.ring.desc| == |s.ring.desc|
    ensures |v'.added| - v'.taken == |v.added| - v.taken
    ensures |v'.returned| - v'.got == |v.returned| - v.got + 1
  {
    IncWraps(|v.returned|);
    SameWindow(v.taken, |v.added|, v'.taken, |v'.added|);
    SameWindow(v.got, |v.returned| + 1, v'.got, |v'.returned|);
  }

  lemma LastUsed(s: Sys, v: View, s': Sys, v': View)
    requires Sized(s, v) && Sized(s', v') && Pow2(|s.ring.desc|)
    requires s'.ring.usedIdx == Inc(s.ring.usedIdx) && v'.returned != []
    ensures (|v'.returned| - 1) % |s.ring.desc| == Slot(s.ring.usedIdx, |s.ring.desc|)
  {
    IncWraps(|v.returned|);
    SamePosition(|v.returned| + 1, |v'.returned|, -1, |s.ring.desc|);
    SlotOf(|v.returned|, |s.ring.desc|);
  }

  lemma HeadReturned(s: Sys, v: View, p: nat)
    requires Inv(s, v) && v.got <= p < |v.returned|
    ensures var c := v.returned[p].chain;
            && c in LiveBag(v) && c.idxs != []
            && Head(c) == s.ring.used[p % |s.ring.desc|].id
  {
    assert v.returned[v.got..][p - v.got] == v.returned[p];
    assert ChainsOf(v.returned[v.got..])[p - v.got] == v.returned[p].chain;
    assert ElemOf(s.ring.used[p % |s.ring.desc|], v.returned[p]);
  }

  /** The chain that v' would have at the end of the used queue. */
  lemma LastReturned(s: Sys, v: View, s': Sys, v': View, head: u16, len: u32)
    requires Returned(s, v, s', v', head, len)
    ensures v'.got < |v'.returned|
    ensures var c := v'.returned[|v'.returned| - 1].chain; c.idxs != [] && Head(c) == head
  {
    Sizes(s, v);
    Sizes(s', v');
    ReturnWindows(s, v, s', v');
    LastUsed(s, v, s', v');
    HeadReturned(s', v', |v'.returned| - 1);
  }

  // What the two states have in common, piece by piece.

  /** The same memory and control blocks, but for one more used element. */
  ghost predicate Alike(s: Sys, v: View, s': Sys, v': View) {
    && Wf(s) && Wf(s') && Sized(s, v) && Sized(s', v')
    && |s'.ring.desc| == |s.ring.desc| && s'.drv == s.drv && s'.dev == s.dev && s'.dpc == s.dpc
    && s'.ring.avail == s.ring.avail && s'.ring.availIdx == s.ring.availIdx
    && |v'.added| - v'.taken == |v.added| - v.taken
    && |v'.returned| - v'.got == |v.returned| - v.got + 1
  }

  /** The slots that are still to be read, or being read, were not written. */
  ghost predicate SlotsKept(s: Sys, v: View, s': Sys, v': View)
    requires Alike(s, v, s', v')
  {
    forall p: nat :: v.got - |v'.reclaiming| <= p < |v.returned| ==>
      s'.ring.used[p % |s.ring.desc|] == s.ring.used[p % |s.ring.desc|]
  }

  ghost predicate HeadsApart(v: View)
    requires Waiting(v)
  {
    forall c1, c2 {:trigger Both(v, c1, c2)} ::
      Both(v, c1, c2) ==> c1.idxs != [] && c2.idxs != [] && Head(c1) != Head(c2)
  }

  /** The chain at the end of the used queue has the head. */
  ghost predicate Ending(v: View, last: Chain)
    requires Waiting(v)
  {
    HeadsApart(v) && v.got < |v.returned| && v.returned[|v.returned| - 1].chain == last && last.idxs != []
  }

  lemma AllApart(s: Sys, v: View)
    requires Inv(s, v)
    ensures HeadsApart(v)
  {
    forall c1, c2 | Both(v, c1, c2)
      ensures c1.idxs != [] && c2.idxs != [] && Head(c1) != Head(c2)
    {
      OneHead(s, v, c1, c2);
    }
  }

  lemma KeepSlots(s: Sys, v: View, s': Sys, v': View, head: u16, len: u32)
    requires Alike(s, v, s', v') && head <= |s.ring.desc| && s' == AfterReturn(s, head, len)
    ensures SlotsKept(s, v, s', v')
  {
    SlotOf(|v.returned|, |s.ring.desc|);
    forall p: nat | v.got - |v'.reclaiming| <= p < |v.returned|
      ensures s'.ring.used[p % |s.ring.desc|] == s.ring.used[p % |s.ring.desc|]
    {
      ModDistinct(p, |v.returned|, |s.ring.desc|);
    }
  }

  lemma AreAlike(s: Sys, v: View, s': Sys, v': View, head: u16, len: u32)
    requires Returned(s, v, s', v', head, len)
    ensures Alike(s, v, s', v') && SlotsKept(s, v, s', v')
  {
    Sizes(s, v);
    Sizes(s', v');
    ReturnWindows(s, v, s', v');
    KeepSlots(s, v, s', v', head, len);
  }

  /** Where a chain in flight is, besides the used queue. */
  ghost predicate Elsewhere(v: View, c: Chain)
    requires Waiting(v)
  {
    c in multiset(v.staging) + multiset(v.added[v.taken..]) + multiset(v.reclaiming)
  }

  lemma InUsed(v: View, p: nat)
    requires Waiting(v) && v.got <= p < |v.returned|
    ensures v.returned[p].chain in multiset(ChainsOf(v.returned[v.got..]))
  {
    assert ChainsOf(v.returned[v.got..])[p - v.got] == v.returned[p].chain;
  }

  lemma InTwoParts(v: View, c1: Chain, c2: Chain)
    requires Waiting(v) && Elsewhere(v, c1) && c2 in multiset(ChainsOf(v.returned[v.got..]))
    ensures Both(v, c1, c2)
  {
    var a := multiset(v.staging) + multiset(v.added[v.taken..]) + multiset(v.reclaiming);
    var b := multiset(ChainsOf(v.returned[v.got..]));
    assert multiset{c1} <= a && multiset{c2} <= b;
    assert a + b <= LiveBag(v);
  }

  /** No chain elsewhere has the head too. */
  lemma HeadElsewhere(v: View, c: Chain, last: Chain)
    requires Waiting(v) && Ending(v, last) && Elsewhere(v, c)
    ensures c.idxs != [] && Head(c) != Head(last)
  {
    InUsed(v, |v.returned| - 1);
    InTwoParts(v, c, last);
  }

  lemma SameAvailable(s: Sys, v: View, s': Sys, v': View, k: nat)
    requires Alike(s, v, s', v') && AvailWindow(s, v) && AvailWindow(s', v') && k < |v.added| - v.taken
    ensures v.added[v.taken + k].idxs != [] && v'.added[v'.taken + k].idxs != []
    ensures Head(v.added[v.taken + k]) == Head(v'.added[v'.taken + k])
  {
    SamePosition(v.taken, v'.taken, k, |s.ring.desc|);
  }

  lemma AddedElsewhere(v: View, k: nat)
    requires Waiting(v) && k < |v.added| - v.taken
    ensures Elsewhere(v, v.added[v.taken + k])
  {
    assert v.added[v.taken..][k] == v.added[v.taken + k];
  }

  lemma NotAvailable(s: Sys, v: View, s': Sys, v': View, last: Chain, c: Chain)
    requires Alike(s, v, s', v') && AvailWindow(s, v) && AvailWindow(s', v')
    requires Ending(v', last) && c in v.added[v.taken..]
    ensures c.idxs != [] && Head(c) != Head(last)
  {
    var k :| 0 <= k < |v.added[v.taken..]| && v.added[v.taken..][k] == c;
    SameAvailable(s, v, s', v', k);
    AddedElsewhere(v', k);
    HeadElsewhere(v', v'.added[v'.taken + k], last);
  }

  lemma TwoUsed(v: View, i: nat, j: nat)
    requires Waiting(v) && v.got <= i < j < |v.returned|
    ensures Both(v, v.returned[i].chain, v.returned[j].chain)
  {
    var used := ChainsOf(v.returned[v.got..]);
    assert used[i - v.got] == v.returned[i].chain && used[j - v.got] == v.returned[j].chain;
    TwoIn(used, i - v.got, j - v.got);
    assert multiset(used) <= LiveBag(v);
  }

  lemma SameUsed(s: Sys, v: View, s': Sys, v': View, k: nat)
    requires Alike(s, v, s', v') && SlotsKept(s, v, s', v') && UsedWindow(s, v) && UsedWindow(s', v')
    requires k < |v.returned| - v.got
    ensures v.returned[v.got + k].chain.idxs != [] && v'.returned[v'.got + k].chain.idxs != []
    ensures Head(v.returned[v.got + k].chain) == Head(v'.returned[v'.got + k].chain)
  {
    var n := |s.ring.desc|;
    SamePosition(v.got, v'.got, k, n);
    assert ElemOf(s.ring.used[(v.got + k) % n], v.returned[v.got + k]);
    assert ElemOf(s'.ring.used[(v'.got + k) % n], v'.returned[v'.got + k]);
  }

  lemma UsedAt(v: View, c: Chain) returns (k: nat)
    requires Waiting(v) && c in ChainsOf(v.returned[v.got..])
    ensures k < |v.returned| - v.got && v.returned[v.got + k].chain == c
  {
    k :| 0 <= k < |v.returned[v.got..]| && ChainsOf(v.returned[v.got..])[k] == c;
  }

  lemma UsedApart(v: View, k: nat, last: Chain)
    requires Waiting(v) && Ending(v, last) && k < |v.returned| - v.got - 1
    ensures v.returned[v.got + k].chain.idxs != [] && Head(v.returned[v.got + k].chain) != Head(last)
  {
    TwoUsed(v, v.got + k, |v.returned| - 1);
  }

  lemma NotUsed(s: Sys, v: View, s': Sys, v': View, last: Chain, c: Chain)
    requires Alike(s, v, s', v') && SlotsKept(s, v, s', v') && UsedWindow(s, v) && UsedWindow(s', v')
    requires Ending(v', last) && c in ChainsOf(v.returned[v.got..])
    ensures c.idxs != [] && Head(c) != Head(last)
  {
    var k := UsedAt(v, c);
    SameUsed(s, v, s', v', k);
    UsedApart(v', k, last);
  }

  /** While the driver publishes a chain, its program counter or the slot knows the head. */
  lemma SameStaged(s: Sys, v: View, s': Sys, v': View)
    requires Alike(s, v, s', v') && DriverPhase(s, v) && DriverPhase(s', v') && v.staging != []
    ensures |v.staging| == |v'.staging| == 1 && v.staging[0].idxs != [] && v'.staging[0].idxs != []
    ensures Head(v.staging[0]) == Head(v'.staging[0])
  {
    SamePosition(|v.added|, |v'.added|, 0, |s.ring.desc|);
  }

  lemma StagedElsewhere(v: View)
    requires Waiting(v)
    ensures |v.staging| == 1 ==> Elsewhere(v, v.staging[0])
    ensures |v.reclaiming| == 1 ==> Elsewhere(v, v.reclaiming[0])
  {
  }

  lemma NotStaged(v: View, v': View, last: Chain, c: Chain)
    requires Waiting(v') && Ending(v', last) && c in v.staging
    requires |v.staging| == |v'.staging| == 1 && v.staging[0].idxs != [] && v'.staging[0].idxs != []
    requires Head(v.staging[0]) == Head(v'.staging[0])
    ensures c.idxs != [] && Head(c) != Head(last)
  {
    StagedElsewhere(v');
    HeadElsewhere(v', v'.staging[0], last);
  }

  /** While it takes one back, the program counter or the slot knows it too. */
  lemma NotReclaimed(s: Sys, v: View, s': Sys, v': View, last: Chain, c: Chain)
    requires Alike(s, v, s', v') && SlotsKept(s, v, s', v') && DriverPhase(s, v) && DriverPhase(s', v')
    requires Ending(v', last) && c in v.reclaiming
    ensures c.idxs != [] && Head(c) != Head(last)
  {
    assert v'.reclaiming != [];
    SamePosition(v.got, v'.got, -1, |s.ring.desc|);
    StagedElsewhere(v');
    HeadElsewhere(v', v'.reclaiming[0], last);
  }

  lemma NowhereElse(s: Sys, v: View, s': Sys, v': View, last: Chain, c: Chain)
    requires Rings(s, v) && Rings(s', v') && Alike(s, v, s', v') && SlotsKept(s, v, s', v') && Ending(v', last)
    requires c.idxs != [] && Head(c) == Head(last)
    ensures c !in v.staging && c !in v.added[v.taken..] && c !in v.reclaiming && c !in ChainsOf(v.returned[v.got..])
  {
    if c in v.staging {
      SameStaged(s, v, s', v');
      NotStaged(v, v', last, c);
    }
    if c in v.added[v.taken..] { NotAvailable(s, v, s', v', last, c); }
    if c in v.reclaiming { NotReclaimed(s, v, s', v', last, c); }
    if c in ChainsOf(v.returned[v.got..]) { NotUsed(s, v, s', v', last, c); }
  }

  /** The returned head belongs to a chain in flight: its entry has a count. */
  lemma HeadInFlight(s: Sys, v: View, s': Sys, v': View, head: u16, len: u32) returns (c: Chain)
    requires Returned(s, v, s', v', head, len)
    ensures c in LiveBag(v) && c.idxs != [] && Head(c) == head
  {
    LastReturned(s, v, s', v', head, len);
    var last := |v'.returned| - 1;
    HeadReturned(s', v', last);
    Member(s', v', v'.returned[last].chain);
    assert s.drv.descx[head].ndescs > 0;
    assert Heads(Live(v), head);
    c :| c in Live(v) && c.idxs != [] && Head(c) == head;
    assert c in multiset(Live(v));
    LiveIsBag(v);
  }

  lemma HeldOtherwise(v: View, c: Chain)
    requires Waiting(v) && v.taking == [] && v.finishing == [] && c in LiveBag(v)
    requires c !in v.staging && c !in v.added[v.taken..] && c !in v.reclaiming && c !in ChainsOf(v.returned[v.got..])
    ensures c in v.held
  {
  }

  lemma OnlyHeld(s: Sys, v: View, s': Sys, v': View, head: u16, len: u32)
    requires Returned(s, v, s', v', head, len)
    ensures Holds(v, head)
  {
    var c := HeadInFlight(s, v, s', v', head, len);
    LastReturned(s, v, s', v', head, len);
    AreAlike(s, v, s', v', head, len);
    AllApart(s', v');
    NowhereElse(s, v, s', v', v'.returned[|v'.returned| - 1].chain, c);
    HeldOtherwise(v, c);
  }

  /** virtqueue_add_consumed_buffer checks its head against the size of the table only. After
      a call that it accepts the ring stands for some state of the abstract queues exactly
      when the device held the chain with that head. */
  lemma ReturnKeepsIff(s: Sys, v: View, head: u16, len: u32)
    requires Inv(s, v) && s.vpc.DeviceIdle?
    requires AddConsumed(s.ring, head, len).1 == SUCCESS
    ensures Exec(s, ReturnCall(head, len)) == AfterReturn(s, head, len)
    ensures (exists v' :: Inv(AfterReturn(s, head, len), v')) <==> Holds(v, head)
  {
    ReturnExec(s, head, len);
    var s' := AfterReturn(s, head, len);
    if Holds(v, head) { AddConsumedCall(s, v, head, len); }
    forall v' | Inv(s', v') ensures Holds(v, head) { OnlyHeld(s, v, s', v', head, len); }
  }

  lemma EmptyUsed(s: Sys, v: View)
    requires Counters(s, v) && v.got == |v.returned|
    ensures s.drv.usedCons == s.ring.usedIdx
  {
  }

  lemma NextAfterReturn(s: Sys, head: u16, len: u32)
    requires Wf(s) && s.dpc.DriverIdle? && s.drv.usedCons == s.ring.usedIdx && head <= |s.ring.desc|
    ensures var s1 := AfterReturn(s, head, len);
            && Wf(s1) && s1.drv.usedCons != s1.ring.usedIdx && NextUsed(s1.ring, s1.drv).id % W16 == head
            && |s1.ring.desc| == |s.ring.desc|
            && var s2 := Do(Do(s1, GetSee).0, GetRead).0;
            && s2.dpc.ReadUsed? && s2.dpc.id == head && |s2.ring.desc| == |s.ring.desc|
  {
    assert s.drv.usedCons != Inc(s.ring.usedIdx);
  }

  /** The one head it should refuse and does not: when the used queue is empty, the element
      that the driver reads next lies in the table exactly when the head did, and with the
      size of the table as head the driver then reclaims a descriptor that does not exist. */
  lemma HeadLeavesTable(s: Sys, v: View, head: u16, len: u32)
    requires Inv(s, v) && s.vpc.DeviceIdle? && s.dpc.DriverIdle? && v.got == |v.returned|
    requires AddConsumed(s.ring, head, len).1 == SUCCESS
    ensures var s1 := Exec(s, ReturnCall(head, len));
            && Wf(s1) && s1.drv.usedCons != s1.ring.usedIdx
            && (NextUsed(s1.ring, s1.drv).id % W16 < |s1.ring.desc| <==> head < |s.ring.desc|)
            && var s2 := Do(Do(s1, GetSee).0, GetRead).0;
            && AtPc(s2, GetFree) && (InTable(s2, GetFree) <==> head != |s.ring.desc|)
  {
    ReturnExec(s, head, len);
    EmptyUsed(s, v);
    NextAfterReturn(s, head, len);
  }
}
