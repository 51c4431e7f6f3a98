/** Every step of the two-sided ring simulates a step of the abstract queues. */
module Simulation {
  import opened Words
  import opened Vring
  import opened Ownership
  import opened Protocol

  // ----- occupancy

  lemma LiveFits(desc: seq<Desc>, descx: seq<DescExtra>, head: nat, freeCnt: int, free: seq<nat>, live: seq<Chain>)
    requires Own(desc, descx, head, freeCnt, free, live)
    ensures |free| + |live| <= |desc|
  {
    SumSize(live);
    assert |multiset(free) + Sum(live)| == |desc|;
  }

  /** Descriptors bound the rings: chains in flight never outnumber the slots. */
  lemma Occupancy(s: Sys, v: View)
    requires Inv(s, v)
    ensures |v.free| + |v.staging| + (|v.added| - v.taken) + |v.taking| + |v.held|
          + |v.finishing| + (|v.returned| - v.got) + |v.reclaiming| <= |s.ring.desc|
  {
    var (desc', head', free') := Settled(s);
    LiveFits(desc', s.drv.descx, head', free', v.free, Live(v));
  }

  /** Hence the 16-bit indices are equal exactly when the queue between them is empty. */
  lemma EmptyIffEqual(s: Sys, v: View)
    requires Inv(s, v)
    ensures s.dev.available == s.ring.availIdx <==> v.taken == |v.added|
    ensures s.drv.usedCons == s.ring.usedIdx <==> v.got == |v.returned|
  {
    Occupancy(s, v);
    CounterDistance(v.taken, |v.added|);
    CounterDistance(v.got, |v.returned|);
  }

  /** The masked 16-bit index and the unbounded counter name the same slot. */
  lemma SlotOf(count: nat, n: nat)
    requires Pow2(n) && n <= CHAIN_END
    ensures Slot(count % W16, n) == count % n
  {
    SlotAcrossWrap(count, n);
  }

  // ----- chains in flight as a bag

  ghost function LiveBag(v: View): multiset<Chain>
    requires Waiting(v)
  {
    multiset(v.staging) + multiset(v.added[v.taken..]) + multiset(v.taking) + multiset(v.held)
    + multiset(ChainsOf(v.finishing)) + multiset(ChainsOf(v.returned[v.got..])) + multiset(v.reclaiming)
  }

  lemma LiveIsBag(v: View)
    requires Waiting(v)
    ensures multiset(Live(v)) == LiveBag(v)
  {
  }

  lemma OwnedMove(s: Sys, s': Sys, v: View, v': View)
    requires Waiting(v) && Waiting(v') && Owned(s, v)
    requires LiveBag(v) == LiveBag(v') && v.free == v'.free
    requires s'.dpc == s.dpc || (!s.dpc.Linking? && !s'.dpc.Linking?)
    requires s'.ring.desc == s.ring.desc && s'.drv.descx == s.drv.descx
    requires s'.drv.head == s.drv.head && s'.drv.freeCnt == s.drv.freeCnt
    ensures Owned(s', v')
  {
    LiveIsBag(v);
    LiveIsBag(v');
    var (desc', head', free') := Settled(s);
    OwnMove(desc', s.drv.descx, head', free', v.free, Live(v), Live(v'));
  }

  lemma OwnMember(desc: seq<Desc>, descx: seq<DescExtra>, head: nat, freeCnt: int,
                  free: seq<nat>, live: seq<Chain>, c: Chain)
    requires Own(desc, descx, head, freeCnt, free, live) && c in multiset(live)
    ensures ChainOk(desc, descx, c) && Head(c) < |desc|
  {
    assert ChainOk(desc, descx, c);
    assert LinkOk(desc, c, 0);
  }

  lemma Member(s: Sys, v: View, c: Chain)
    requires Waiting(v) && Owned(s, v) && c in LiveBag(v)
    ensures ChainOk(Settled(s).0, s.drv.descx, c) && Head(c) < |s.ring.desc|
  {
    LiveIsBag(v);
    var (desc', head', free') := Settled(s);
    OwnMember(desc', s.drv.descx, head', free', v.free, Live(v), c);
  }

  // ----- the device takes a chain

  lemma TakeSeeView(v: View)
    requires Waiting(v) && History(v) && v.taking == [] && v.taken < |v.added|
    ensures var v' := v.(taken := v.taken + 1, taking := [v.added[v.taken]]);
            LiveBag(v') == LiveBag(v) && History(v') && v.added[v.taken] in LiveBag(v)
  {
    assert v.added[v.taken..] == [v.added[v.taken]] + v.added[v.taken + 1..];
    assert v.added[..v.taken + 1] == v.added[..v.taken] + [v.added[v.taken]];
  }

  lemma TakeSeeRings(s: Sys, v: View)
    requires Rings(s, v) && s.vpc.DeviceIdle?
    requires v.taken < |v.added| && s.dev.available != s.ring.availIdx
    ensures Rings(Step(s, TakeSee).0, v.(taken := v.taken + 1, taking := [v.added[v.taken]]))
  {
    SlotOf(v.taken, |s.ring.desc|);
    IncWraps(v.taken);
  }

  lemma TakeSeeOk(s: Sys, v: View)
    requires Inv(s, v) && Allowed(v, TakeSee) && CanStep(s, TakeSee)
    ensures Step(s, TakeSee).1 == ViewStep(v, TakeSee).1
    ensures Inv(Step(s, TakeSee).0, ViewStep(v, TakeSee).0)
  {
    EmptyIffEqual(s, v);
    if v.taken < |v.added| {
      TakeSeeRings(s, v);
      TakeSeeView(v);
      OwnedMove(s, Step(s, TakeSee).0, v, ViewStep(v, TakeSee).0);
    }
  }

  lemma TakeSlotOk(s: Sys, v: View)
    requires Inv(s, v) && Allowed(v, TakeSlot) && CanStep(s, TakeSlot)
    ensures Inv(Step(s, TakeSlot).0, ViewStep(v, TakeSlot).0)
  {
    OwnedMove(s, Step(s, TakeSlot).0, v, v);
  }

  lemma ApartFromFirst(free: seq<nat>, first: Chain, rest: seq<Chain>, n: nat, c: Chain)
    requires Partition(n, free, [first] + rest) && c in multiset(rest)
    ensures forall j :: 0 <= j < |c.idxs| ==> c.idxs[j] < n && c.idxs[j] !in first.idxs
  {
    var live := [first] + rest;
    var m :| 0 <= m < |rest| && rest[m] == c;
    assert live[m + 1] == c;
    LiveDistinct(free, live, n, m + 1);
    forall j | 0 <= j < |c.idxs| ensures c.idxs[j] !in first.idxs {
      LiveApart(free, live, n, m + 1, 0, c.idxs[j]);
    }
  }

  lemma LiveButStaging(v: View)
    requires Waiting(v) && |v.staging| == 1
    ensures Live(v) == [v.staging[0]] + Live(v)[1..]
    ensures multiset(Live(v)[1..]) == LiveBag(v) - multiset(v.staging)
  {
    LiveIsBag(v);
    var live := Live(v);
    assert v.staging == [v.staging[0]];
    assert live == [v.staging[0]] + live[1..];
    assert multiset(live) == multiset(v.staging) + multiset(live[1..]);
  }

  lemma ApartFromStaging(desc: seq<Desc>, descx: seq<DescExtra>, head: nat, freeCnt: int, v: View, c: Chain)
    requires Waiting(v) && Own(desc, descx, head, freeCnt, v.free, Live(v))
    requires |v.staging| == 1 && c in LiveBag(v) - multiset(v.staging)
    ensures forall j :: 0 <= j < |c.idxs| ==> c.idxs[j] < |desc| && c.idxs[j] !in v.staging[0].idxs
  {
    LiveButStaging(v);
    ApartFromFirst(v.free, v.staging[0], Live(v)[1..], |desc|, c);
  }

  /** A chain on its way to or from the device is described in the table as it is now, even
      while the driver is filling in another one. */
  lemma CurrentOk(s: Sys, v: View, c: Chain)
    requires Inv(s, v) && c in LiveBag(v) - multiset(v.staging)
    ensures ChainOk(s.ring.desc, s.drv.descx, c) && Head(c) < |s.ring.desc|
  {
    Member(s, v, c);
    if s.dpc.Linking? {
      var (desc', head', free') := Settled(s);
      ApartFromStaging(desc', s.drv.descx, head', free', v, c);
      ChainFrame(desc', s.drv.descx, s.ring.desc, s.drv.descx, c);
    }
  }

  lemma TakeDescView(v: View)
    requires Waiting(v) && History(v) && |v.taking| == 1
    ensures var v' := v.(taking := [], held := v.held + v.taking);
            LiveBag(v') == LiveBag(v) && History(v') && v.taking[0] in LiveBag(v) - multiset(v.staging)
  {
    assert multiset(v.held + v.taking) == multiset(v.held) + multiset(v.taking);
  }

  lemma TakeDescOk(s: Sys, v: View)
    requires Inv(s, v) && Allowed(v, TakeDesc) && CanStep(s, TakeDesc)
    ensures Step(s, TakeDesc).1 == ViewStep(v, TakeDesc).1
    ensures Inv(Step(s, TakeDesc).0, ViewStep(v, TakeDesc).0)
  {
    var c := v.taking[0];
    assert v.taking == [c];
    TakeDescView(v);
    CurrentOk(s, v, c);
    assert LinkOk(s.ring.desc, c, 0);
    OwnedMove(s, Step(s, TakeDesc).0, v, v.(taking := [], held := v.held + [c]));
  }

  // ----- the device returns a chain

  /** A slot being written is not one that is still to be read. */
  lemma SlotsApart(lo: int, hi: int, n: nat)
    requires n > 0 && hi - lo < n
    ensures forall p :: lo <= p < hi ==> p % n != hi % n
  {
    forall p | lo <= p < hi ensures p % n != hi % n { ModDistinct(p, hi, n); }
  }

  lemma ReturnElemView(v: View, k: nat, len: u32)
    requires Waiting(v) && History(v) && v.finishing == [] && k < |v.held|
    ensures var v' := v.(held := v.held[..k] + v.held[k + 1..], finishing := [Done(v.held[k], len)]);
            LiveBag(v') == LiveBag(v) && History(v')
  {
    TakeOut(v.held, k);
    assert ChainsOf([Done(v.held[k], len)]) == [v.held[k]];
  }

  lemma ReturnElemRings(s: Sys, v: View, k: nat, head: u16, len: u32)
    requires Rings(s, v) && s.vpc.DeviceIdle? && k < |v.held|
    requires |v.returned| - v.got + |v.reclaiming| < |s.ring.desc|
    requires v.held[k].idxs != [] && Head(v.held[k]) == head <= |s.ring.desc|
    ensures Rings(Step(s, ReturnElem(head, len)).0,
                  v.(held := v.held[..k] + v.held[k + 1..], finishing := [Done(v.held[k], len)]))
  {
    SlotOf(|v.returned|, |s.ring.desc|);
    SlotsApart(v.got - |v.reclaiming|, |v.returned|, |s.ring.desc|);
  }

  function ReturnedView(v: View, k: nat, len: u32): View
    requires k < |v.held|
  {
    v.(held := v.held[..k] + v.held[k + 1..], finishing := [Done(v.held[k], len)])
  }

  lemma ReturnElemInv(s: Sys, v: View, k: nat, head: u16, len: u32)
    requires Inv(s, v) && CanStep(s, ReturnElem(head, len)) && v.finishing == []
    requires k < |v.held| && v.held[k].idxs != [] && Head(v.held[k]) == head
    requires |v.returned| - v.got + |v.reclaiming| < |s.ring.desc|
    ensures Inv(Step(s, ReturnElem(head, len)).0, ReturnedView(v, k, len))
  {
    ReturnElemView(v, k, len);
    ReturnElemRings(s, v, k, head, len);
    OwnedMove(s, Step(s, ReturnElem(head, len)).0, v, ReturnedView(v, k, len));
  }

  lemma RoomForReturn(s: Sys, v: View)
    requires Inv(s, v) && v.held != []
    ensures |v.returned| - v.got + |v.reclaiming| < |s.ring.desc|
  {
    Occupancy(s, v);
  }

  lemma ReturnElemIs(v: View, head: u16, len: u32)
    requires Waiting(v) && Allowed(v, ReturnElem(head, len))
    ensures v.held != [] && v.finishing == []
    ensures ViewStep(v, ReturnElem(head, len)).0 == ReturnedView(v, HeldIndex(v.held, head), len)
  {
  }

  lemma ReturnElemOk(s: Sys, v: View, head: u16, len: u32)
    requires Inv(s, v) && Allowed(v, ReturnElem(head, len)) && CanStep(s, ReturnElem(head, len))
    ensures Inv(Step(s, ReturnElem(head, len)).0, ViewStep(v, ReturnElem(head, len)).0)
  {
    var k := HeldIndex(v.held, head);
    ReturnElemIs(v, head, len);
    RoomForReturn(s, v);
    ReturnElemInv(s, v, k, head, len);
  }

  lemma ReturnBumpView(v: View)
    requires Waiting(v) && History(v)
    ensures var v' := v.(finishing := [], returned := v.returned + v.finishing);
            LiveBag(v') == LiveBag(v) && History(v')
  {
    assert (v.returned + v.finishing)[v.got..] == v.returned[v.got..] + v.finishing;
    assert ChainsOf(v.returned[v.got..] + v.finishing) == ChainsOf(v.returned[v.got..]) + ChainsOf(v.finishing);
    assert ChainsOf(v.returned + v.finishing) == ChainsOf(v.returned) + ChainsOf(v.finishing);
    assert ChainsOf([]) == [];
  }

  lemma ReturnBumpRings(s: Sys, v: View)
    requires Rings(s, v) && s.vpc.Placed?
    ensures Rings(Step(s, ReturnBump).0, v.(finishing := [], returned := v.returned + v.finishing))
  {
    IncWraps(|v.returned|);
  }

  lemma ReturnBumpOk(s: Sys, v: View)
    requires Inv(s, v) && Allowed(v, ReturnBump) && CanStep(s, ReturnBump)
    ensures Inv(Step(s, ReturnBump).0, ViewStep(v, ReturnBump).0)
  {
    ReturnBumpView(v);
    ReturnBumpRings(s, v);
    OwnedMove(s, Step(s, ReturnBump).0, v, ViewStep(v, ReturnBump).0);
  }

  // ----- the driver gets a chain back

  lemma ChainsOfCons(d: Done, ds: seq<Done>)
    ensures ChainsOf([d] + ds) == [d.chain] + ChainsOf(ds)
  {
  }

  lemma GetSeeView(v: View)
    requires Waiting(v) && History(v) && v.reclaiming == [] && v.got < |v.returned|
    ensures var v' := v.(got := v.got + 1, reclaiming := [v.returned[v.got].chain]);
            LiveBag(v') == LiveBag(v) && History(v')
  {
    var rest := v.returned[v.got + 1..];
    assert v.returned[v.got..] == [v.returned[v.got]] + rest;
    ChainsOfCons(v.returned[v.got], rest);
  }

  lemma GetSeeRings(s: Sys, v: View)
    requires Rings(s, v) && s.dpc.DriverIdle?
    requires v.got < |v.returned| && s.drv.usedCons != s.ring.usedIdx
    ensures Rings(Step(s, GetSee).0, v.(got := v.got + 1, reclaiming := [v.returned[v.got].chain]))
  {
    SlotOf(v.got, |s.ring.desc|);
    IncWraps(v.got);
  }

  lemma GetSeeOk(s: Sys, v: View)
    requires Inv(s, v) && Allowed(v, GetSee) && CanStep(s, GetSee)
    ensures Step(s, GetSee).1 == ViewStep(v, GetSee).1
    ensures Inv(Step(s, GetSee).0, ViewStep(v, GetSee).0)
  {
    EmptyIffEqual(s, v);
    if v.got < |v.returned| {
      GetSeeRings(s, v);
      GetSeeView(v);
      OwnedMove(s, Step(s, GetSee).0, v, ViewStep(v, GetSee).0);
    }
  }

  lemma GetReadRings(s: Sys, v: View)
    requires Rings(s, v) && s.dpc.SawUsed? && s.dpc.slot < |s.ring.desc|
    requires v.reclaiming[0].idxs != [] && Head(v.reclaiming[0]) < CHAIN_END
    ensures Rings(Step(s, GetRead).0, v)
  {
  }

  lemma GetReadOk(s: Sys, v: View)
    requires Inv(s, v) && Allowed(v, GetRead) && CanStep(s, GetRead)
    ensures Inv(Step(s, GetRead).0, v)
  {
    assert Head(v.reclaiming[0]) < |s.ring.desc| by { Member(s, v, v.reclaiming[0]); }
    GetReadRings(s, v);
    OwnedMove(s, Step(s, GetRead).0, v, v);
  }

  lemma GetFreeView(v: View)
    requires Waiting(v) && History(v) && |v.reclaiming| == 1
    ensures var v' := v.(free := v.reclaiming[0].idxs + v.free, reclaiming := []);
            var k := |Live(v)| - 1;
            && Live(v)[k] == v.reclaiming[0] && History(v')
            && Live(v') == Live(v)[..k] + Live(v)[k + 1..]
  {
    var v' := v.(free := v.reclaiming[0].idxs + v.free, reclaiming := []);
    assert Live(v) == Live(v') + [v.reclaiming[0]];
  }

  lemma GetFreeRings(s: Sys, v: View)
    requires Rings(s, v) && s.dpc.ReadUsed? && s.dpc.id < |s.ring.desc|
    requires Reclaim(s.ring.desc, s.drv, s.dpc.id).1.usedCons == s.drv.usedCons
    ensures Rings(Step(s, GetFree).0, v.(free := v.reclaiming[0].idxs + v.free, reclaiming := []))
  {
  }

  lemma GetFreeOk(s: Sys, v: View)
    requires Inv(s, v) && Allowed(v, GetFree) && CanStep(s, GetFree)
    ensures Step(s, GetFree).1 == ViewStep(v, GetFree).1
    ensures Inv(Step(s, GetFree).0, ViewStep(v, GetFree).0)
  {
    var k := |Live(v)| - 1;
    GetFreeView(v);
    OwnFree(s.ring.desc, s.drv, v.free, Live(v), k);
    GetFreeRings(s, v);
  }

  // ----- the driver adds a buffer

  lemma AddBeginView(v: View, bufs: seq<Buf>, cookie: nat)
    requires Waiting(v) && History(v) && v.staging == [] && |bufs| <= |v.free|
    ensures var v' := v.(free := v.free[|bufs|..], staging := [NewChain(v.free, bufs, cookie)]);
            History(v') && Live(v') == [NewChain(v.free, bufs, cookie)] + Live(v)
  {
  }

  lemma AddBeginOwned(s: Sys, v: View, bufs: seq<Buf>, cookie: nat)
    requires Wf(s) && Waiting(v) && Owned(s, v) && s.dpc.DriverIdle?
    requires 1 <= |bufs| <= |v.free|
    ensures CanStep(s, AddBegin(bufs, cookie))
    ensures Path(s.ring.desc, v.free[..|bufs|]) && v.free[0] == s.drv.head
    ensures var desc' := WriteChain(s.ring.desc, s.drv.head, bufs, 0).0;
            forall x :: 0 <= x < |s.ring.desc| && x !in v.free[..|bufs|] ==> s.ring.desc[x] == desc'[x]
  {
    FreePath(s.ring.desc, s.drv.head, v.free, Live(v), |bufs|);
    WriteChainAlong(s.ring.desc, v.free[..|bufs|], bufs, 0);
    assert v.free[..|bufs|][0..] == v.free[..|bufs|];
  }

  lemma AddBeginPhase(s: Sys, v: View, bufs: seq<Buf>, cookie: nat)
    requires Wf(s) && CanStep(s, AddBegin(bufs, cookie)) && |bufs| <= |v.free|
    requires Path(s.ring.desc, v.free[..|bufs|]) && v.free[0] == s.drv.head
    requires var desc' := WriteChain(s.ring.desc, s.drv.head, bufs, 0).0;
             forall x :: 0 <= x < |s.ring.desc| && x !in v.free[..|bufs|] ==> s.ring.desc[x] == desc'[x]
    ensures LinkingPhase(Step(s, AddBegin(bufs, cookie)).0, NewChain(v.free, bufs, cookie))
  {
  }

  lemma AddBeginRings(s: Sys, v: View, bufs: seq<Buf>, cookie: nat)
    requires Rings(s, v) && CanStep(s, AddBegin(bufs, cookie)) && |bufs| <= |v.free|
    requires LinkingPhase(Step(s, AddBegin(bufs, cookie)).0, NewChain(v.free, bufs, cookie))
    ensures Rings(Step(s, AddBegin(bufs, cookie)).0,
                  v.(free := v.free[|bufs|..], staging := [NewChain(v.free, bufs, cookie)]))
  {
  }

  lemma AddBeginOk(s: Sys, v: View, bufs: seq<Buf>, cookie: nat)
    requires Inv(s, v) && Allowed(v, AddBegin(bufs, cookie)) && AtPc(s, AddBegin(bufs, cookie))
    ensures CanStep(s, AddBegin(bufs, cookie))
    ensures Inv(Step(s, AddBegin(bufs, cookie)).0, ViewStep(v, AddBegin(bufs, cookie)).0)
  {
    AddBeginOwned(s, v, bufs, cookie);
    AddBeginPhase(s, v, bufs, cookie);
    AddBeginRings(s, v, bufs, cookie);
    AddBeginView(v, bufs, cookie);
    OwnAdd(s.ring.desc, s.drv.descx, s.drv.head, v.free, Live(v), bufs, cookie);
  }

  lemma AddLinkPhase(s: Sys, c: Chain)
    requires Wf(s) && LinkingPhase(s, c) && CanStep(s, AddLink)
    ensures LinkingPhase(Step(s, AddLink).0, c) && Settled(Step(s, AddLink).0) == Settled(s)
  {
    var i := s.dpc.i;
    assert c.idxs[i] in c.idxs;
    if i + 1 < |c.idxs| {
      assert s.ring.desc[c.idxs[i]].next == c.idxs[i + 1];
    }
  }

  lemma AddLinkRings(s: Sys, v: View)
    requires Rings(s, v) && CanStep(s, AddLink)
    requires LinkingPhase(Step(s, AddLink).0, v.staging[0])
    ensures Rings(Step(s, AddLink).0, v)
  {
  }

  lemma AddLinkOk(s: Sys, v: View)
    requires Inv(s, v) && CanStep(s, AddLink)
    ensures Inv(Step(s, AddLink).0, v)
  {
    AddLinkPhase(s, v.staging[0]);
    AddLinkRings(s, v);
  }

  lemma AddLinkedRings(s: Sys, v: View)
    requires Rings(s, v) && CanStep(s, AddLinked)
    ensures Rings(Step(s, AddLinked).0, v)
  {
  }

  lemma OwnCount(desc: seq<Desc>, descx: seq<DescExtra>, head: nat, freeCnt: int, free: seq<nat>, live: seq<Chain>)
    requires Own(desc, descx, head, freeCnt, free, live)
    ensures freeCnt == |free|
  {
  }

  lemma SettledAtEnd(s: Sys)
    requires Wf(s) && CanStep(s, AddLinked) && s.drv.freeCnt >= |s.dpc.bufs|
    ensures Settled(Step(s, AddLinked).0) == Settled(s)
  {
    assert Minus(s.drv.freeCnt, |s.dpc.bufs|) == s.drv.freeCnt - |s.dpc.bufs|;
  }

  lemma AddLinkedSettles(s: Sys, v: View)
    requires Wf(s) && CanStep(s, AddLinked) && Waiting(v) && Owned(s, v)
    ensures Owned(Step(s, AddLinked).0, v)
  {
    var (desc', head', free') := Settled(s);
    OwnCount(desc', s.drv.descx, head', free', v.free, Live(v));
    SettledAtEnd(s);
  }

  lemma AddLinkedOk(s: Sys, v: View)
    requires Inv(s, v) && CanStep(s, AddLinked)
    ensures Inv(Step(s, AddLinked).0, v)
  {
    AddLinkedRings(s, v);
    AddLinkedSettles(s, v);
  }

  lemma AddSlotRings(s: Sys, v: View)
    requires Rings(s, v) && s.dpc.Linked?
    requires |v.added| - v.taken + |v.taking| < |s.ring.desc|
    ensures Rings(Step(s, AddSlot).0, v)
  {
    SlotOf(|v.added|, |s.ring.desc|);
    SlotsApart(v.taken - |v.taking|, |v.added|, |s.ring.desc|);
  }

  lemma AddSlotOk(s: Sys, v: View)
    requires Inv(s, v) && CanStep(s, AddSlot)
    ensures Inv(Step(s, AddSlot).0, v)
  {
    assert |v.added| - v.taken + |v.taking| < |s.ring.desc| by { Occupancy(s, v); }
    AddSlotRings(s, v);
    OwnedMove(s, Step(s, AddSlot).0, v, v);
  }

  lemma AddBumpView(v: View)
    requires Waiting(v) && History(v)
    ensures var v' := v.(staging := [], added := v.added + v.staging);
            LiveBag(v') == LiveBag(v) && History(v')
  {
    assert (v.added + v.staging)[v.taken..] == v.added[v.taken..] + v.staging;
    assert (v.added + v.staging)[..v.taken] == v.added[..v.taken];
  }

  lemma AddBumpRings(s: Sys, v: View)
    requires Rings(s, v) && s.dpc.Slotted?
    ensures Rings(Step(s, AddBump).0, v.(staging := [], added := v.added + v.staging))
  {
    IncWraps(|v.added|);
  }

  lemma AddBumpOk(s: Sys, v: View)
    requires Inv(s, v) && Allowed(v, AddBump) && CanStep(s, AddBump)
    ensures Inv(Step(s, AddBump).0, ViewStep(v, AddBump).0)
  {
    AddBumpView(v);
    AddBumpRings(s, v);
    OwnedMove(s, Step(s, AddBump).0, v, ViewStep(v, AddBump).0);
  }

  // ----- one step of either side

  lemma EnabledByRings(s: Sys, v: View, a: Action)
    requires Rings(s, v) && AtPc(s, a)
    requires !a.AddBegin? && !a.GetFree? && !a.TakeDesc? && !a.ReturnElem?
    ensures CanStep(s, a) && Allowed(v, a)
  {
    match a
    case AddLink => assert s.dpc.idx == v.staging[0].idxs[s.dpc.i];
    case _ =>
  }

  lemma EnabledByOwner(s: Sys, v: View, a: Action, c: Chain)
    requires Rings(s, v) && AtPc(s, a)
    requires c.idxs != [] && |c.bufs| == |c.idxs| && Head(c) < |s.ring.desc|
    requires (a.GetFree? && v.reclaiming == [c]) || (a.TakeDesc? && v.taking == [c])
          || (a.ReturnElem? && Head(c) == a.head && Holds(v, a.head))
    ensures CanStep(s, a) && Allowed(v, a)
  {
  }

  /** The chain that a call is about to dereference. */
  lemma Subject(s: Sys, v: View, a: Action) returns (c: Chain)
    requires Rings(s, v) && AtPc(s, a) && Obeys(v, a)
    requires a.GetFree? || a.TakeDesc? || a.ReturnElem?
    ensures (a.GetFree? && v.reclaiming == [c]) || (a.TakeDesc? && v.taking == [c])
          || (a.ReturnElem? && c in v.held && c.idxs != [] && Head(c) == a.head)
    ensures c in LiveBag(v)
  {
    c := if a.GetFree? then v.reclaiming[0]
         else if a.TakeDesc? then v.taking[0] else v.held[HeldIndex(v.held, a.head)];
  }

  /** Where the program counter is decides the stage of the abstract machine, and under the
      invariant every index the step dereferences lies in its table. */
  lemma Enabled(s: Sys, v: View, a: Action)
    requires Inv(s, v) && AtPc(s, a) && Obeys(v, a)
    ensures CanStep(s, a) && Allowed(v, a)
  {
    if a.AddBegin? {
      AddBeginOwned(s, v, a.bufs, a.cookie);
    } else if a.GetFree? || a.TakeDesc? || a.ReturnElem? {
      var c := Subject(s, v, a);
      Member(s, v, c);
      EnabledByOwner(s, v, a, c);
    } else {
      EnabledByRings(s, v, a);
    }
  }

  /** Every step of either side, at any point of the other side's call, keeps the invariant
      and hands out what the abstract queues hand out. */
  lemma StepSimulates(s: Sys, v: View, a: Action)
    requires Inv(s, v) && AtPc(s, a) && Obeys(v, a)
    ensures CanStep(s, a) && Allowed(v, a)
    ensures Step(s, a).1 == ViewStep(v, a).1
    ensures Inv(Step(s, a).0, ViewStep(v, a).0)
  {
    Enabled(s, v, a);
    match a
    case AddBegin(bufs, cookie) => AddBeginOk(s, v, bufs, cookie);
    case AddLink => AddLinkOk(s, v);
    case AddLinked => AddLinkedOk(s, v);
    case AddSlot => AddSlotOk(s, v);
    case AddBump => AddBumpOk(s, v);
    case GetSee => GetSeeOk(s, v);
    case GetRead => GetReadOk(s, v);
    case GetFree => GetFreeOk(s, v);
    case TakeSee => TakeSeeOk(s, v);
    case TakeSlot => TakeSlotOk(s, v);
    case TakeDesc => TakeDescOk(s, v);
    case ReturnElem(head, len) => ReturnElemOk(s, v, head, len);
    case ReturnBump => ReturnBumpOk(s, v);
  }
}
