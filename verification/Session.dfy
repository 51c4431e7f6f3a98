/** The driver and the device on the same memory: what their calls, as made on the objects,
    mean for the abstract queues, and that a buffer arrives as it was sent. */
module Session {
  import opened Words
  import opened Vring
  import opened Ownership
  import opened Protocol
  import opened Simulation
  import opened Runs
  import opened Calls
  import opened Guarantees
  import opened Virtqueue
  import opened MetalIo

  /** The state of both sides between calls. */
  ghost function SysOf(driver: Virtqueue, device: Virtqueue): Sys
    reads driver, driver.descx, driver.vring, driver.vring.desc, driver.vring.avail, driver.vring.used, device
  {
    Sys(driver.Mem(), driver.Drv(), device.Dev(), DriverIdle, DeviceIdle)
  }

  /** Two control blocks on one memory. */
  ghost predicate Share(driver: Virtqueue, device: Virtqueue) {
    driver != device && driver.Valid() && device.Valid() && driver.vring == device.vring && driver.descx != device.descx
  }

  lemma InitTwice(desc: seq<Desc>)
    requires |desc| <= CHAIN_END
    ensures InitDesc(InitDesc(desc)) == InitDesc(desc)
  {
  }

  /** virtqueue_create on both sides, on memory whose indices are zero: the session begins in
      the invariant, with everything free. */
  method Create(vring: VringMem, driverShm: Region, deviceShm: Region)
    returns (driver: Virtqueue, device: Virtqueue, ghost v: View)
    requires vring.Valid() && WellFormed(driverShm) && WellFormed(deviceShm)
    requires vring.availIdx == 0 && vring.usedIdx == 0
    modifies vring, vring.desc
    ensures fresh(driver) && fresh(device) && driver.vring == vring
    ensures driver.shm == driverShm && device.shm == deviceShm && Share(driver, device)
    ensures v == StartView(vring.desc.Length) && Inv(SysOf(driver, device), v)
  {
    driver := new Virtqueue(vring, driverShm);
    InitTwice(old(vring.desc[..]));
    device := new Virtqueue(vring, deviceShm);
    v := StartView(vring.desc.Length);
    StartIffZeroed(driver.Mem());
    assert SysOf(driver, device) == Start(driver.Mem());
  }

  // ----- the calls may be made

  lemma {:induction false} FreeWalks(desc: seq<Desc>, free: seq<nat>, j: nat, k: nat)
    requires FreeList(desc, At(free, 0), free) && j + k <= |free|
    ensures Walks(desc, At(free, j), k)
    decreases k
  {
    if k > 0 {
      assert desc[free[j]].next == At(free, j + 1);
      FreeWalks(desc, free, j + 1, k - 1);
    }
  }

  lemma {:induction false} ChainEnds(desc: seq<Desc>, descx: seq<DescExtra>, c: Chain, j: nat, fuel: nat)
    requires ChainOk(desc, descx, c) && j < |c.idxs| <= fuel + j + 1
    ensures Ends(desc, c.idxs[j], fuel)
    decreases fuel
  {
    assert LinkOk(desc, c, j);
    LinkFlagsBits(j + 1 < |c.idxs|, c.bufs[j].write);
    if j + 1 < |c.idxs| { ChainEnds(desc, descx, c, j + 1, fuel - 1); }
  }

  /** The chain named by the next used element ends within the table. */
  lemma NextUsedEnds(s: Sys, v: View)
    requires Inv(s, v) && s.dpc.DriverIdle? && s.drv.usedCons != s.ring.usedIdx
    ensures Ends(s.ring.desc, NextUsed(s.ring, s.drv).id % W16, |s.ring.desc|)
  {
    EmptyIffEqual(s, v);
    var c := v.returned[v.got].chain;
    GetInRange(s, v);
    FirstUsed(v);
    CurrentOk(s, v, c);
    ChainShort(s, v, c);
    ChainEnds(s.ring.desc, s.drv.descx, c, 0, |s.ring.desc|);
  }

  lemma HeadWalks(s: Sys, v: View, k: nat)
    requires Inv(s, v) && s.dpc.DriverIdle? && k <= |v.free|
    ensures Walks(s.ring.desc, s.drv.head, k)
  {
    FreeWalks(s.ring.desc, v.free, 0, k);
  }

  // ----- the calls on the objects

  method AddRequest(driver: Virtqueue, device: Virtqueue, sg: seq<Sg>, readable: nat,
                    cookie: nat, ghost v: View)
    returns (ghost v': View)
    requires Share(driver, device) && Inv(SysOf(driver, device), v)
    requires 1 <= |sg| <= |v.free| && forall i :: 0 <= i < |sg| ==> WellFormed(sg[i].io)
    modifies driver, driver.descx, driver.vring.desc, driver.vring.avail, driver.vring`availIdx
    ensures Inv(SysOf(driver, device), v')
    ensures v' == v.(free := v.free[|sg|..], staging := [],
                     added := v.added + [NewChain(v.free, Bufs(sg, readable), cookie)])
  {
    ghost var s := SysOf(driver, device);
    AddBufferCall(s, v, Bufs(sg, readable), cookie);
    HeadWalks(s, v, |sg|);
    var status := driver.Add(sg, readable, cookie);
    v' := v.(free := v.free[|sg|..], added := v.added + [NewChain(v.free, Bufs(sg, readable), cookie)], staging := []);
  }

  method TakeNext(driver: Virtqueue, device: Virtqueue, ghost v: View)
    returns (buffer: u64, out: Out, ghost v': View)
    requires Share(driver, device) && Inv(SysOf(driver, device), v)
    modifies device`available
    ensures Inv(SysOf(driver, device), v')
    ensures v.taken == |v.added| ==> v' == v && out == Empty && buffer == NULL
    ensures v.taken < |v.added| ==>
              var c := v.added[v.taken];
              && v' == v.(taken := v.taken + 1, held := v.held + [c])
              && c.idxs != [] && c.bufs != [] && out == Took(Head(c), c.bufs[0].addr, c.bufs[0].len)
              && buffer == PhysToVirt(device.shm, c.bufs[0].addr)
  {
    TakeAvailableCall(SysOf(driver, device), v);
    v' := if v.taken == |v.added| then v
          else v.(taken := v.taken + 1, held := v.held + [v.added[v.taken]]);
    buffer, out := device.Take();
  }

  /** virtqueue_get_desc_size: 0 when nothing is available, otherwise the length of the first
      buffer of the oldest request. */
  method AnnounceNext(driver: Virtqueue, device: Virtqueue, ghost v: View)
    returns (len: u32)
    requires Share(driver, device) && Inv(SysOf(driver, device), v)
    ensures v.taken == |v.added| ==> len == 0
    ensures v.taken < |v.added| ==> v.added[v.taken].bufs != [] && len == v.added[v.taken].bufs[0].len
  {
    TakeAvailableCall(SysOf(driver, device), v);
    len := device.NextSize();
  }

  method ReturnHeld(driver: Virtqueue, device: Virtqueue, head: u16, len: u32, ghost v: View)
    returns (ghost v': View)
    requires Share(driver, device) && Inv(SysOf(driver, device), v) && Holds(v, head)
    modifies driver.vring.used, driver.vring`usedIdx
    ensures Inv(SysOf(driver, device), v')
    ensures v' == ViewReturned(v, HeldIndex(v.held, head), len)
  {
    AddConsumedCall(SysOf(driver, device), v, head, len);
    var status := device.Return(head, len);
    v' := ViewReturned(v, HeldIndex(v.held, head), len);
  }

  method GetNext(driver: Virtqueue, device: Virtqueue, ghost v: View)
    returns (out: Out, ghost v': View)
    requires Share(driver, device) && Inv(SysOf(driver, device), v)
    modifies driver, driver.descx, driver.vring.desc
    ensures Inv(SysOf(driver, device), v')
    ensures v.got == |v.returned| ==> v' == v && out == Empty
    ensures v.got < |v.returned| ==>
              var d := v.returned[v.got];
              && out == Got(d.chain.cookie, d.len)
              && v' == v.(got := v.got + 1, free := d.chain.idxs + v.free)
  {
    ghost var s := SysOf(driver, device);
    GetBufferCall(s, v);
    if v.got < |v.returned| { NextUsedEnds(s, v); }
    v' := if v.got == |v.returned| then v
          else v.(got := v.got + 1, free := v.returned[v.got].chain.idxs + v.free);
    out := driver.Get();
  }

  // ----- a buffer arrives as it was sent

  /** The consumer's pointer and length are those of the first entry of the request when both
      sides use the region and the pointer lies in it. */
  lemma FirstBuffer(shm: Region, sg: seq<Sg>, readable: nat)
    requires forall i :: 0 <= i < |sg| ==> WellFormed(sg[i].io)
    requires sg != [] && sg[0].io == shm && InRegion(shm, sg[0].virt) && 0 <= sg[0].len < 0x8000_0000
    ensures var b := Bufs(sg, readable)[0];
            PhysToVirt(shm, b.addr) == sg[0].virt && b.len == sg[0].len
  {
    RoundTrip(shm, sg[0].virt);
    DivModUnique(sg[0].len, W32, 0, sg[0].len);
  }

  /** The whole request, as a consumer reads it off the chain it took: every pointer of the
      request in order, the entries to read before those to write (VIRTIO 1.1, 2.6.4). */
  lemma WholeRequest(s: Sys, v: View, c: Chain, shm: Region, sg: seq<Sg>, readable: nat)
    requires Inv(s, v) && (c in v.held || c in v.taking)
    requires forall i :: 0 <= i < |sg| ==> sg[i].io == shm && InRegion(shm, sg[i].virt)
    requires WellFormed(shm) && c.bufs == Bufs(sg, readable)
    ensures c.idxs != [] && Head(c) < |s.ring.desc|
    ensures var r := ReadChain(s.ring.desc, Head(c), |s.ring.desc|);
            && |r| == |sg|
            && forall i :: 0 <= i < |sg| ==>
                 && PhysToVirt(shm, r[i].addr) == sg[i].virt && (r[i].write <==> i >= readable)
                 && (0 <= sg[i].len < 0x8000_0000 ==> r[i].len == sg[i].len)
                 && (-0x8000_0000 <= sg[i].len < 0 ==> r[i].len == sg[i].len + W32)
  {
    HeldChainReads(s, v, c);
    forall i | 0 <= i < |sg| ensures PhysToVirt(shm, VirtToPhys(shm, sg[i].virt)) == sg[i].virt {
      RoundTrip(shm, sg[i].virt);
    }
    forall i | 0 <= i < |sg| && -0x8000_0000 <= sg[i].len < 0x8000_0000
      ensures sg[i].len % W32 == if sg[i].len < 0 then sg[i].len + W32 else sg[i].len
    {
      var q := if sg[i].len < 0 then -1 else 0;
      DivModUnique(sg[i].len, W32, q, sg[i].len - q * W32);
    }
  }

  lemma TakenFits(s: Sys, v: View, c: Chain)
    requires Inv(s, v) && c in v.held
    ensures c.idxs != [] && Head(c) < |s.ring.desc| && Holds(v, Head(c))
  {
    assert c in multiset(v.held);
    Member(s, v, c);
    var k :| 0 <= k < |v.held| && v.held[k] == c;
  }

  /** One exchange on an idle queue: the device gets the driver's pointer, the driver gets its
      cookie back with the device's length, and all descriptors are free again. */
  method Exchange(driver: Virtqueue, device: Virtqueue, sg: seq<Sg>, readable: nat,
                  cookie: nat, len: u32, ghost v: View)
    returns (buffer: u64, size: u32, out: Out, ghost v': View)
    requires Share(driver, device) && Inv(SysOf(driver, device), v)
    requires v.taken == |v.added| && v.got == |v.returned| && v.held == []
    requires 1 <= |sg| <= |v.free| && forall i :: 0 <= i < |sg| ==> WellFormed(sg[i].io)
    requires sg[0].io == device.shm && InRegion(device.shm, sg[0].virt) && 0 <= sg[0].len < 0x8000_0000
    modifies driver, device`available, driver.descx
    modifies driver.vring, driver.vring.desc, driver.vring.avail, driver.vring.used
    ensures Inv(SysOf(driver, device), v') && |v'.free| == |v.free|
    ensures buffer == sg[0].virt && size == sg[0].len && out == Got(cookie, len)
  {
    var took: Out;
    ghost var v1, v2, v3;
    v1 := AddRequest(driver, device, sg, readable, cookie, v);
    ghost var c := v1.added[v.taken];
    FirstBuffer(device.shm, sg, readable);
    buffer, took, v2 := TakeNext(driver, device, v1);
    size := took.len;
    assert v2.held[0] == c;
    TakenFits(SysOf(driver, device), v2, c);
    v3 := ReturnHeld(driver, device, took.head, len, v2);
    assert v3.returned[v.got] == Done(c, len);
    out, v' := GetNext(driver, device, v3);
  }
}
