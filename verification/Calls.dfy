/** The entry points of util/virtqueue.c as whole calls, and what a whole call does to the
    abstract queues. */
module Calls {
  import opened Words
  import opened Vring
  import opened Ownership
  import opened Protocol
  import opened Simulation
  import opened Runs

  /** vq_ring_update_avail: place the head in the next slot, then publish it. */
  function UpdateAvail(r: Ring, d: Driver, head: u16): (q: (Ring, Driver))
    requires Shaped(r, d)
    ensures Shaped(q.0, q.1)
  {
    (r.(avail := r.avail[Slot(r.availIdx, |r.desc|) := head], availIdx := Inc(r.availIdx)),
     d.(queued := Inc(d.queued)))
  }

  function AddBuffer(r: Ring, d: Driver, bufs: seq<Buf>, cookie: nat): (q: (Ring, Driver))
    requires Shaped(r, d) && d.head < |r.desc| && |bufs| < W16
    ensures Shaped(q.0, q.1)
  {
    var descx' := d.descx[d.head := DescExtra(cookie, |bufs|)];
    var (desc', idx) := WriteChain(r.desc, d.head, bufs, 0);
    UpdateAvail(r.(desc := desc'),
                d.(head := idx, freeCnt := Minus(d.freeCnt, |bufs|), descx := descx'), d.head)
  }

  /** virtqueue_add_single_buffer: has_next only sets the flag, the next link is published by
      a call of its own. */
  function AddSingle(r: Ring, d: Driver, buf: Buf, cookie: nat, hasNext: bool): (q: (Ring, Driver))
    requires Shaped(r, d) && d.head < |r.desc|
    ensures Shaped(q.0, q.1)
  {
    var descx' := d.descx[d.head := DescExtra(cookie, 1)];
    var next := r.desc[d.head].next;
    var desc' := r.desc[d.head := Desc(buf.addr, buf.len, LinkFlags(hasNext, buf.write), next)];
    UpdateAvail(r.(desc := desc'), d.(head := next, freeCnt := Minus(d.freeCnt, 1), descx := descx'), d.head)
  }

  /** The element that the next virtqueue_get_buffer looks at. */
  function NextUsed(r: Ring, d: Driver): UsedElem
    requires Shaped(r, d)
  {
    r.used[Slot(d.usedCons, |r.desc|)]
  }

  function GetBuffer(r: Ring, d: Driver): (q: (Ring, Driver, Out))
    requires Shaped(r, d) && (d.usedCons != r.usedIdx ==> NextUsed(r, d).id % W16 < |r.desc|)
    ensures Shaped(q.0, q.1)
  {
    if d.usedCons == r.usedIdx then (r, d, Empty)
    else
      var e := NextUsed(r, d);
      var (desc', drv', cookie) := Reclaim(r.desc, d.(usedCons := Inc(d.usedCons)), e.id % W16);
      (r.(desc := desc'), drv', Got(cookie, e.len))
  }

  /** The head that the next virtqueue_get_available_buffer looks at. */
  function NextAvail(r: Ring, dev: Device): u16
    requires Pow2(|r.desc|) && |r.avail| == |r.desc|
  {
    r.avail[Slot(dev.available, |r.desc|)]
  }

  function TakeAvailable(r: Ring, dev: Device): (Device, Out)
    requires Pow2(|r.desc|) && |r.avail| == |r.desc|
    requires dev.available != r.availIdx ==> NextAvail(r, dev) < |r.desc|
  {
    if dev.available == r.availIdx then (dev, Empty)
    else
      var head := NextAvail(r, dev);
      (Device(Inc(dev.available)), Took(head, r.desc[head].addr, r.desc[head].len))
  }

  /** virtqueue_get_desc_size: zero when nothing is available. */
  function DescSize(r: Ring, dev: Device): u32
    requires Pow2(|r.desc|) && |r.avail| == |r.desc|
    requires dev.available != r.availIdx ==> NextAvail(r, dev) < |r.desc|
  {
    if dev.available == r.availIdx then 0 else r.desc[NextAvail(r, dev)].len
  }

  const SUCCESS: int := 0
  const ERROR_VRING_NO_BUFF: int := -3007

  function AddConsumed(r: Ring, head: u16, len: u32): (q: (Ring, int))
    requires Pow2(|r.desc|) && |r.used| == |r.desc|
    ensures |q.0.used| == |r.used|
    ensures q.1 == if head <= |r.desc| then 0 else -3007
    ensures q.1 != 0 ==> q.0 == r
  {
    if head > |r.desc| then (r, ERROR_VRING_NO_BUFF)
    else (r.(used := r.used[Slot(r.usedIdx, |r.desc|) := UsedElem(head, len)], usedIdx := Inc(r.usedIdx)), SUCCESS)
  }

  // ----- whole calls are runs of steps

  function Repeat(a: Action, k: nat): (r: seq<Action>)
    ensures |r| == k && forall i :: 0 <= i < k ==> r[i] == a
  {
    seq(k, _ => a)
  }

  function AddCall(bufs: seq<Buf>, cookie: nat): seq<Action> {
    [AddBegin(bufs, cookie)] + Repeat(AddLink, |bufs|) + [AddLinked, AddSlot, AddBump]
  }

  const GetCall: seq<Action> := [GetSee, GetRead, GetFree]
  const TakeCall: seq<Action> := [TakeSee, TakeSlot, TakeDesc]

  function ReturnCall(head: u16, len: u32): seq<Action> { [ReturnElem(head, len), ReturnBump] }

  /** The machine when the filling loop is through. */
  function AllLinked(s: Sys): Sys
    requires s.dpc.Linking? && s.dpc.i <= |s.dpc.bufs|
  {
    var (desc', idx') := WriteChain(s.ring.desc, s.dpc.idx, s.dpc.bufs, s.dpc.i);
    s.(ring := s.ring.(desc := desc'), dpc := Linking(s.dpc.bufs, |s.dpc.bufs|, idx', s.dpc.first))
  }

  lemma OneRound(s: Sys)
    requires Wf(s) && CanStep(s, AddLink)
    ensures Do(s, AddLink).0.dpc.Linking? && Do(s, AddLink).0.dpc.i == s.dpc.i + 1
    ensures Do(s, AddLink).0.dpc.bufs == s.dpc.bufs
    ensures AllLinked(Do(s, AddLink).0) == AllLinked(s)
  {
  }

  lemma LinkKeeps(s: Sys, v: View)
    requires Inv(s, v) && AtPc(s, AddLink)
    ensures Wf(s) && CanStep(s, AddLink) && Inv(Do(s, AddLink).0, v)
  {
    Enabled(s, v, AddLink);
    AddLinkOk(s, v);
  }

  /** k more rounds of the filling loop stay in the table. */
  ghost predicate Linkable(s: Sys, k: nat)
    decreases k
  {
    Wf(s) && s.dpc.Linking? && k + s.dpc.i == |s.dpc.bufs|
    && (k > 0 ==> CanStep(s, AddLink) && Linkable(Do(s, AddLink).0, k - 1))
  }

  lemma NoRound(s: Sys)
    requires s.dpc.Linking? && s.dpc.i == |s.dpc.bufs|
    ensures AllLinked(s) == s && Exec(s, Repeat(AddLink, 0)) == s
  {
  }

  lemma {:induction false} LinkRoundsInv(s: Sys, v: View, k: nat)
    requires Inv(s, v) && s.dpc.Linking? && k + s.dpc.i == |s.dpc.bufs|
    ensures Linkable(s, k) && Inv(AllLinked(s), v)
    decreases k
  {
    if k > 0 {
      LinkKeeps(s, v);
      OneRound(s);
      LinkRoundsInv(Do(s, AddLink).0, v, k - 1);
    } else {
      NoRound(s);
    }
  }

  lemma ExecOne(s: Sys, a: Action, rest: seq<Action>)
    ensures Exec(s, [a] + rest) == Exec(Do(s, a).0, rest)
  {
    assert ([a] + rest)[1..] == rest;
  }

  /** The rounds of the filling loop, taken one step at a time, are the loop. */
  lemma {:induction false} LinkRounds(s: Sys, k: nat)
    requires Linkable(s, k)
    ensures Exec(s, Repeat(AddLink, k)) == AllLinked(s)
    decreases k
  {
    if k > 0 {
      OneRound(s);
      LinkRounds(Do(s, AddLink).0, k - 1);
      assert Repeat(AddLink, k) == [AddLink] + Repeat(AddLink, k - 1);
      ExecOne(s, AddLink, Repeat(AddLink, k - 1));
    } else {
      NoRound(s);
    }
  }

  lemma {:induction false} ExecConcat(s: Sys, a: seq<Action>, b: seq<Action>)
    ensures Exec(s, a + b) == Exec(Exec(s, a), b)
    decreases a
  {
    if a == [] {
      assert a + b == b;
    } else {
      assert (a + b)[1..] == a[1..] + b;
      ExecConcat(Do(s, a[0]).0, a[1..], b);
    }
  }

  lemma ExecThree(s: Sys, a: Action, b: Action, c: Action)
    ensures Exec(s, [a, b, c]) == Do(Do(Do(s, a).0, b).0, c).0
  {
    assert [a, b, c] == [a] + [b, c] && [b, c] == [b] + [c] && [c] == [c] + [];
    ExecOne(s, a, [b, c]);
    ExecOne(Do(s, a).0, b, [c]);
    ExecOne(Do(Do(s, a).0, b).0, c, []);
  }

  const PublishCall: seq<Action> := [AddLinked, AddSlot, AddBump]

  /** The machine when the linked chain is published. */
  function AllPublished(s: Sys): Sys
    requires Wf(s) && s.dpc.Linking?
  {
    var d := s.drv.(head := s.dpc.idx, freeCnt := Minus(s.drv.freeCnt, |s.dpc.bufs|));
    var (r', d') := UpdateAvail(s.ring, d, s.dpc.first);
    s.(ring := r', drv := d', dpc := DriverIdle)
  }

  lemma PublishSteps(s: Sys)
    requires Wf(s) && s.dpc.Linking? && s.dpc.i == |s.dpc.bufs|
    ensures Exec(s, PublishCall) == AllPublished(s)
    ensures var s1 := Do(s, AddLinked).0; s1.dpc.Linked? && Do(s1, AddSlot).0.dpc.Slotted?
  {
    ExecThree(s, AddLinked, AddSlot, AddBump);
  }

  lemma KeepsView(s: Sys, v: View, a: Action)
    requires Inv(s, v) && AtPc(s, a) && (a.AddLinked? || a.AddSlot?)
    ensures Inv(Do(s, a).0, v)
  {
    DoSimulates(s, v, a);
  }

  lemma BumpView(s: Sys, v: View)
    requires Inv(s, v) && AtPc(s, AddBump)
    ensures Inv(Do(s, AddBump).0, v.(staging := [], added := v.added + v.staging))
  {
    Enabled(s, v, AddBump);
    DoSimulates(s, v, AddBump);
  }

  lemma PublishInv(s: Sys, v: View)
    requires Inv(s, v) && s.dpc.Linking? && s.dpc.i == |s.dpc.bufs|
    ensures Inv(AllPublished(s), v.(staging := [], added := v.added + v.staging))
  {
    PublishSteps(s);
    ExecThree(s, AddLinked, AddSlot, AddBump);
    var s1 := Do(s, AddLinked).0;
    var s2 := Do(s1, AddSlot).0;
    KeepsView(s, v, AddLinked);
    KeepsView(s1, v, AddSlot);
    BumpView(s2, v);
  }

  lemma BeginView(s: Sys, v: View, bufs: seq<Buf>, cookie: nat)
    requires Inv(s, v) && s.dpc.DriverIdle? && 1 <= |bufs| <= |v.free|
    ensures CanStep(s, AddBegin(bufs, cookie))
    ensures Inv(Do(s, AddBegin(bufs, cookie)).0,
                v.(free := v.free[|bufs|..], staging := [NewChain(v.free, bufs, cookie)]))
  {
    Enabled(s, v, AddBegin(bufs, cookie));
    DoSimulates(s, v, AddBegin(bufs, cookie));
  }

  lemma AddBufferSteps(s: Sys, bufs: seq<Buf>, cookie: nat)
    requires Wf(s) && CanStep(s, AddBegin(bufs, cookie))
    ensures var s1 := Do(s, AddBegin(bufs, cookie)).0;
            && s1.dpc == Linking(bufs, 0, s.drv.head, s.drv.head)
            && AllPublished(AllLinked(s1)) == s.(ring := AddBuffer(s.ring, s.drv, bufs, cookie).0,
                                                 drv := AddBuffer(s.ring, s.drv, bufs, cookie).1)
  {
  }

  lemma AddBufferExec(s: Sys, bufs: seq<Buf>, cookie: nat)
    requires Wf(s) && CanStep(s, AddBegin(bufs, cookie))
    requires var s1 := Do(s, AddBegin(bufs, cookie)).0; Exec(s1, Repeat(AddLink, |bufs|)) == AllLinked(s1)
    ensures Exec(s, AddCall(bufs, cookie)) == AllPublished(AllLinked(Do(s, AddBegin(bufs, cookie)).0))
  {
    var begin, rounds := AddBegin(bufs, cookie), Repeat(AddLink, |bufs|);
    var s1 := Do(s, begin).0;
    assert AddCall(bufs, cookie) == [begin] + (rounds + PublishCall);
    ExecOne(s, begin, rounds + PublishCall);
    ExecConcat(s1, rounds, PublishCall);
    PublishSteps(AllLinked(s1));
  }

  /** One call of virtqueue_add_buffer: the request joins the end of the available queue,
      on the first |bufs| links of the free chain. */
  lemma AddBufferCall(s: Sys, v: View, bufs: seq<Buf>, cookie: nat)
    requires Inv(s, v) && s.dpc.DriverIdle? && 1 <= |bufs| <= |v.free|
    ensures s.drv.head < |s.ring.desc| && |bufs| < W16
    ensures var (r', d') := AddBuffer(s.ring, s.drv, bufs, cookie);
            && Exec(s, AddCall(bufs, cookie)) == s.(ring := r', drv := d')
            && Inv(s.(ring := r', drv := d'),
                   v.(free := v.free[|bufs|..], added := v.added + [NewChain(v.free, bufs, cookie)], staging := []))
  {
    BeginView(s, v, bufs, cookie);
    AddBufferSteps(s, bufs, cookie);
    var s1 := Do(s, AddBegin(bufs, cookie)).0;
    var v1 := v.(free := v.free[|bufs|..], staging := [NewChain(v.free, bufs, cookie)]);
    LinkRoundsInv(s1, v1, |bufs|);
    LinkRounds(s1, |bufs|);
    AddBufferExec(s, bufs, cookie);
    PublishInv(AllLinked(s1), v1);
  }

  // ----- getting a buffer back

  lemma GetSteps(s: Sys)
    requires Wf(s) && s.dpc.DriverIdle? && s.drv.usedCons != s.ring.usedIdx
    requires NextUsed(s.ring, s.drv).id % W16 < |s.ring.desc|
    ensures var (r', d', out) := GetBuffer(s.ring, s.drv);
            var s1 := Do(s, GetSee).0;
            var s2 := Do(s1, GetRead).0;
            && s1.dpc.SawUsed? && s2.dpc.ReadUsed?
            && Do(s2, GetFree) == (s.(ring := r', drv := d'), out)
  {
  }

  lemma FirstUsed(v: View)
    requires Waiting(v) && v.got < |v.returned|
    ensures v.returned[v.got].chain in LiveBag(v) - multiset(v.staging)
  {
    assert ChainsOf(v.returned[v.got..])[0] == v.returned[v.got].chain;
  }

  lemma NextUsedElem(s: Sys, v: View)
    requires Rings(s, v) && v.got < |v.returned|
    ensures ElemOf(NextUsed(s.ring, s.drv), v.returned[v.got])
  {
    SlotOf(v.got, |s.ring.desc|);
    assert ElemOf(s.ring.used[v.got % |s.ring.desc|], v.returned[v.got]);
  }

  lemma UsedChain(s: Sys, v: View)
    requires Waiting(v) && Owned(s, v) && v.got < |v.returned|
    ensures v.returned[v.got].chain.idxs != [] && Head(v.returned[v.got].chain) < |s.ring.desc|
  {
    FirstUsed(v);
    Member(s, v, v.returned[v.got].chain);
  }

  lemma SmallId(e: UsedElem, d: Done, n: nat)
    requires ElemOf(e, d) && Head(d.chain) < n <= CHAIN_END
    ensures e.id % W16 == Head(d.chain)
  {
  }

  /** The next used element names the chain at the front of the used queue. */
  lemma GetInRange(s: Sys, v: View)
    requires Rings(s, v) && Owned(s, v) && v.got < |v.returned|
    ensures v.returned[v.got].chain.idxs != []
    ensures NextUsed(s.ring, s.drv).id % W16 == Head(v.returned[v.got].chain) < |s.ring.desc|
  {
    NextUsedElem(s, v);
    UsedChain(s, v);
    SmallId(NextUsed(s.ring, s.drv), v.returned[v.got], |s.ring.desc|);
  }

  lemma GetViews(v: View)
    requires Waiting(v) && v.staging == [] && v.reclaiming == [] && v.got < |v.returned|
    ensures var v1 := DoView(v, GetSee).0;
            var v2 := DoView(v1, GetRead).0;
            var d := v.returned[v.got];
            DoView(v2, GetFree) == (v.(got := v.got + 1, free := d.chain.idxs + v.free), Got(d.chain.cookie, d.len))
  {
  }

  lemma ThreeSteps(s: Sys, v: View, a: Action, b: Action, c: Action)
    requires Inv(s, v) && AtPc(s, a) && Obeys(v, a) && AtPc(Do(s, a).0, b) && AtPc(Do(Do(s, a).0, b).0, c)
    requires !b.AddBegin? && !b.ReturnElem? && !c.AddBegin? && !c.ReturnElem?
    ensures var v2 := DoView(DoView(v, a).0, b).0;
            && Inv(Do(Do(Do(s, a).0, b).0, c).0, DoView(v2, c).0)
            && Do(Do(Do(s, a).0, b).0, c).1 == DoView(v2, c).1
  {
    DoSimulates(s, v, a);
    DoSimulates(Do(s, a).0, DoView(v, a).0, b);
    DoSimulates(Do(Do(s, a).0, b).0, DoView(DoView(v, a).0, b).0, c);
  }

  /** One call of virtqueue_get_buffer: nothing when the used queue is empty; otherwise its
      first entry, with the cookie of the request and the length it was returned with, and
      the links of its chain are free again. */
  lemma GetBufferCall(s: Sys, v: View)
    requires Inv(s, v) && s.dpc.DriverIdle?
    ensures s.drv.usedCons == s.ring.usedIdx <==> v.got == |v.returned|
    ensures v.got == |v.returned| ==> GetBuffer(s.ring, s.drv) == (s.ring, s.drv, Empty)
    ensures v.got < |v.returned| ==>
              var d := v.returned[v.got];
              && NextUsed(s.ring, s.drv).id % W16 < |s.ring.desc|
              && var (r', d', out) := GetBuffer(s.ring, s.drv);
              && out == Got(d.chain.cookie, d.len)
              && Exec(s, GetCall) == s.(ring := r', drv := d')
              && Inv(s.(ring := r', drv := d'), v.(got := v.got + 1, free := d.chain.idxs + v.free))
  {
    EmptyIffEqual(s, v);
    if v.got < |v.returned| {
      GetInRange(s, v);
      GetSteps(s);
      GetViews(v);
      ThreeSteps(s, v, GetSee, GetRead, GetFree);
      ExecThree(s, GetSee, GetRead, GetFree);
    }
  }

  // ----- the device's calls

  lemma TakeSteps(s: Sys)
    requires Wf(s) && s.vpc.DeviceIdle? && s.dev.available != s.ring.availIdx
    requires NextAvail(s.ring, s.dev) < |s.ring.desc|
    ensures var (dev', out) := TakeAvailable(s.ring, s.dev);
            var s1 := Do(s, TakeSee).0;
            var s2 := Do(s1, TakeSlot).0;
            && s1.vpc.SawAvail? && s2.vpc.ReadAvail?
            && Do(s2, TakeDesc) == (s.(dev := dev'), out)
  {
  }

  lemma TakeInRange(s: Sys, v: View)
    requires Inv(s, v) && v.taken < |v.added|
    ensures NextAvail(s.ring, s.dev) < |s.ring.desc|
    ensures v.added[v.taken].idxs != [] && v.added[v.taken].bufs != []
  {
    var c := v.added[v.taken];
    SlotOf(v.taken, |s.ring.desc|);
    assert c in LiveBag(v) by { assert v.added[v.taken..][0] == c; }
    Member(s, v, c);
  }

  lemma TakeViews(v: View)
    requires Waiting(v) && v.taking == [] && v.finishing == [] && v.taken < |v.added|
    requires v.added[v.taken].idxs != [] && v.added[v.taken].bufs != []
    ensures var v1 := DoView(v, TakeSee).0;
            var v2 := DoView(v1, TakeSlot).0;
            var c := v.added[v.taken];
            DoView(v2, TakeDesc) ==
              (v.(taken := v.taken + 1, held := v.held + [c]), Took(Head(c), c.bufs[0].addr, c.bufs[0].len))
  {
  }

  /** One call of virtqueue_get_available_buffer: nothing when the available queue is empty;
      otherwise its first chain, which the device now holds, by head, address and length.
      virtqueue_get_desc_size announces that length without taking the chain. */
  lemma TakeAvailableCall(s: Sys, v: View)
    requires Inv(s, v) && s.vpc.DeviceIdle?
    ensures s.dev.available == s.ring.availIdx <==> v.taken == |v.added|
    ensures v.taken == |v.added| ==>
              TakeAvailable(s.ring, s.dev) == (s.dev, Empty) && DescSize(s.ring, s.dev) == 0
    ensures v.taken < |v.added| ==>
              var c := v.added[v.taken];
              && NextAvail(s.ring, s.dev) < |s.ring.desc|
              && c.idxs != [] && c.bufs != []
              && var (dev', out) := TakeAvailable(s.ring, s.dev);
              && out == Took(Head(c), c.bufs[0].addr, c.bufs[0].len)
              && DescSize(s.ring, s.dev) == c.bufs[0].len
              && Exec(s, TakeCall) == s.(dev := dev')
              && Inv(s.(dev := dev'), v.(taken := v.taken + 1, held := v.held + [c]))
  {
    EmptyIffEqual(s, v);
    if v.taken < |v.added| {
      TakeInRange(s, v);
      TakeSteps(s);
      TakeViews(v);
      ThreeSteps(s, v, TakeSee, TakeSlot, TakeDesc);
      ExecThree(s, TakeSee, TakeSlot, TakeDesc);
    }
  }

  lemma ReturnSteps(s: Sys, head: u16, len: u32)
    requires Wf(s) && s.vpc.DeviceIdle? && head <= |s.ring.desc|
    ensures Do(s, ReturnElem(head, len)).0.vpc.Placed?
    ensures Do(Do(s, ReturnElem(head, len)).0, ReturnBump).0 == s.(ring := AddConsumed(s.ring, head, len).0)
    ensures AddConsumed(s.ring, head, len).1 == SUCCESS
  {
  }

  /** The view after the chain at k of those held was returned. */
  function ViewReturned(v: View, k: nat, len: u32): View
    requires k < |v.held|
  {
    v.(held := v.held[..k] + v.held[k + 1..], returned := v.returned + [Done(v.held[k], len)])
  }

  lemma ReturnViews(v: View, head: u16, len: u32)
    requires Waiting(v) && v.taking == [] && v.finishing == [] && Holds(v, head)
    ensures DoView(DoView(v, ReturnElem(head, len)).0, ReturnBump).0 == ViewReturned(v, HeldIndex(v.held, head), len)
  {
  }

  lemma InTableOf(s: Sys, head: u16, len: u32)
    requires CanStep(s, ReturnElem(head, len))
    ensures head <= |s.ring.desc|
  {
  }

  lemma ReturnInv(s: Sys, v: View, head: u16, len: u32)
    requires Inv(s, v) && s.vpc.DeviceIdle? && Holds(v, head)
    ensures head <= |s.ring.desc| && v.taking == [] && v.finishing == []
    ensures Inv(Do(Do(s, ReturnElem(head, len)).0, ReturnBump).0,
                DoView(DoView(v, ReturnElem(head, len)).0, ReturnBump).0)
  {
    Enabled(s, v, ReturnElem(head, len));
    InTableOf(s, head, len);
    DoSimulates(s, v, ReturnElem(head, len));
    DoSimulates(Do(s, ReturnElem(head, len)).0, DoView(v, ReturnElem(head, len)).0, ReturnBump);
  }

  lemma ReturnExec(s: Sys, head: u16, len: u32)
    requires Wf(s) && s.vpc.DeviceIdle? && head <= |s.ring.desc|
    ensures Exec(s, ReturnCall(head, len)) == s.(ring := AddConsumed(s.ring, head, len).0)
    ensures AddConsumed(s.ring, head, len).1 == SUCCESS
  {
    ReturnSteps(s, head, len);
    ExecOne(s, ReturnElem(head, len), [ReturnBump]);
    assert [ReturnBump] == [ReturnBump] + [];
    ExecOne(Do(s, ReturnElem(head, len)).0, ReturnBump, []);
  }

  lemma AddConsumedInv(s: Sys, v: View, head: u16, len: u32)
    requires Inv(s, v) && s.vpc.DeviceIdle? && Holds(v, head)
    ensures head <= |s.ring.desc|
    ensures Inv(s.(ring := AddConsumed(s.ring, head, len).0), ViewReturned(v, HeldIndex(v.held, head), len))
  {
    ReturnInv(s, v, head, len);
    var s2 := Do(Do(s, ReturnElem(head, len)).0, ReturnBump).0;
    var v2 := DoView(DoView(v, ReturnElem(head, len)).0, ReturnBump).0;
    assert s2 == s.(ring := AddConsumed(s.ring, head, len).0) by { ReturnSteps(s, head, len); }
    assert v2 == ViewReturned(v, HeldIndex(v.held, head), len) by { ReturnViews(v, head, len); }
  }

  /** One call of virtqueue_add_consumed_buffer for a head the device holds: the chain joins
      the end of the used queue with the length given. */
  lemma AddConsumedCall(s: Sys, v: View, head: u16, len: u32)
    requires Inv(s, v) && s.vpc.DeviceIdle? && Holds(v, head)
    ensures AddConsumed(s.ring, head, len).1 == SUCCESS
    ensures Exec(s, ReturnCall(head, len)) == s.(ring := AddConsumed(s.ring, head, len).0)
    ensures Inv(s.(ring := AddConsumed(s.ring, head, len).0), ViewReturned(v, HeldIndex(v.held, head), len))
  {
    AddConsumedInv(s, v, head, len);
    ReturnExec(s, head, len);
  }
}
