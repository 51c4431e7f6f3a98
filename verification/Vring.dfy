/** The memory of a split virtqueue (include/virtio_ring.h) and the private fields the two
    sides keep beside it (include/virtqueue.h), as values, with the straight-line parts of
    util/virtqueue.c as functions on them. */
module Vring {
  import opened Words

  /** Terminates the free chain: no descriptor table is larger than this. */
  const CHAIN_END: u16 := 32768

  const F_NEXT: u16 := 1
  const F_WRITE: u16 := 2
  const F_INDIRECT: u16 := 4

  datatype Desc = Desc(addr: u64, len: u32, flags: u16, next: u16)

  datatype UsedElem = UsedElem(id: u32, len: u32)

  /** Shared memory. The table and both rings have one slot per descriptor. */
  datatype Ring = Ring(
    desc: seq<Desc>,
    availFlags: u16, availIdx: u16, avail: seq<u16>, usedEvent: u16,
    usedFlags: u16, usedIdx: u16, used: seq<UsedElem>, availEvent: u16)

  /** What the driver remembers for the head of a chain; cookie 0 is the null pointer. */
  datatype DescExtra = DescExtra(cookie: nat, ndescs: u16)

  /** The control-block fields of the side that adds buffers. */
  datatype Driver = Driver(freeCnt: u16, head: u16, usedCons: u16, queued: u16, descx: seq<DescExtra>)

  /** The control-block field of the side that consumes buffers. */
  datatype Device = Device(available: u16)

  /** One scatter/gather entry as the descriptor table records it. */
  datatype Buf = Buf(addr: u64, len: u32, write: bool)

  function Inc(x: u16): u16 { (x + 1) % W16 }

  lemma IncWraps(count: nat)
    ensures Inc(count % W16) == (count + 1) % W16
  {
    DivModUnique(count, W16, count / W16, count % W16);
    var r := count % W16;
    if r + 1 < W16 {
      DivModUnique(count + 1, W16, count / W16, r + 1);
    } else {
      DivModUnique(count + 1, W16, count / W16 + 1, 0);
    }
  }

  function Minus(x: u16, y: int): u16 { (x - y) % W16 }

  /** The slot of a free-running index: masked, not divided. */
  function Slot(idx: u16, n: nat): (slot: nat)
    requires Pow2(n)
    ensures slot == idx % n && slot < n
  {
    MaskIsMod(idx, n);
    And(idx, n - 1)
  }

  predicate HasNext(flags: u16) { And(flags, F_NEXT) != 0 }

  predicate IsWrite(flags: u16) { And(flags, F_WRITE) != 0 }

  predicate IsIndirect(flags: u16) { And(flags, F_INDIRECT) != 0 }

  /** NEXT, WRITE and INDIRECT are the bits of value 1, 2 and 4 (VIRTIO 1.1, section 2.6.5). */
  lemma FlagBits(flags: u16)
    ensures HasNext(flags) <==> flags % 2 == 1
    ensures IsWrite(flags) <==> flags / 2 % 2 == 1
    ensures IsIndirect(flags) <==> flags / 4 % 2 == 1
  {
    LowBits(flags);
  }

  function LinkFlags(next: bool, write: bool): u16 {
    var f := if next then Or(0, F_NEXT) else 0;
    if write then Or(f, F_WRITE) else f
  }

  lemma LinkFlagsBits(next: bool, write: bool)
    ensures HasNext(LinkFlags(next, write)) == next
    ensures IsWrite(LinkFlags(next, write)) == write
    ensures !IsIndirect(LinkFlags(next, write))
  {
    assert And(1, 1) == 1 && And(2, 1) == 0 && And(3, 1) == 1;
    assert And(1, 2) == 0 && And(2, 2) == 2 && And(3, 2) == 2;
    assert And(1, 4) == 0 && And(2, 4) == 0 && And(3, 4) == 0;
  }

  /** One round of the loop that fills a chain: everything but `next` is overwritten. */
  function WriteLink(d: Desc, bufs: seq<Buf>, i: nat): Desc
    requires i < |bufs|
  {
    Desc(bufs[i].addr, bufs[i].len, LinkFlags(i < |bufs| - 1, bufs[i].write), d.next)
  }

  /** The rounds from i on, and the index the loop ends with. A walk that would leave the
      table stops there. */
  function WriteChain(desc: seq<Desc>, idx: u16, bufs: seq<Buf>, i: nat): (r: (seq<Desc>, u16))
    requires i <= |bufs|
    ensures |r.0| == |desc|
    decreases |bufs| - i
  {
    if i == |bufs| || idx >= |desc| then (desc, idx)
    else WriteChain(desc[idx := WriteLink(desc[idx], bufs, i)], desc[idx].next, bufs, i + 1)
  }

  /** Follows NEXT from idx, counting `left` down once per link followed. */
  function ChainEnd(desc: seq<Desc>, idx: u16, left: u16, fuel: nat): (r: (u16, u16))
    requires idx < |desc|
    ensures r.0 < |desc|
    decreases fuel
  {
    if fuel == 0 || !HasNext(desc[idx].flags) || desc[idx].next >= |desc| then (idx, left)
    else ChainEnd(desc, desc[idx].next, Minus(left, 1), fuel - 1)
  }

  /** Returns the chain that starts at idx to the front of the free chain. */
  function FreeChain(desc: seq<Desc>, drv: Driver, idx: u16): (r: (seq<Desc>, Driver))
    requires idx < |desc| == |drv.descx|
    ensures |r.0| == |desc| && |r.1.descx| == |drv.descx|
  {
    var nd := drv.descx[idx].ndescs;
    var (last, left) :=
      if IsIndirect(desc[idx].flags) then (idx, Minus(nd, 1))
      else ChainEnd(desc, idx, Minus(nd, 1), |desc|);
    (desc[last := desc[last].(next := drv.head)],
     drv.(freeCnt := (drv.freeCnt + nd) % W16,
          head := idx,
          descx := drv.descx[idx := drv.descx[idx].(ndescs := left)]))
  }

  /** Frees the chain at idx and hands its cookie out, leaving none behind. */
  function Reclaim(desc: seq<Desc>, drv: Driver, idx: u16): (r: (seq<Desc>, Driver, nat))
    requires idx < |desc| == |drv.descx|
    ensures |r.0| == |desc| && |r.1.descx| == |drv.descx|
  {
    var (desc', drv') := FreeChain(desc, drv, idx);
    (desc', drv'.(descx := drv'.descx[idx := drv'.descx[idx].(cookie := 0)]), drv'.descx[idx].cookie)
  }
}
