/** util/virtqueue.c on memory: the vring both sides share, and the control block each side
    keeps. Every call leaves memory and control block as its function on values says. */
module Virtqueue {
  import opened Words
  import opened Vring
  import opened Protocol
  import opened Runs
  import opened Calls
  import opened Events
  import opened MetalIo

  /** One scatter/gather entry of a request; len is a C int. */
  datatype Sg = Sg(virt: u64, io: Region, len: int)

  function BufOf(sg: Sg, write: bool): Buf
    requires WellFormed(sg.io)
  {
    Buf(VirtToPhys(sg.io, sg.virt), sg.len % W32, write)
  }

  /** A request as the descriptor table records it: the first `readable` entries for the
      device to read, the others for it to write. */
  function Bufs(sg: seq<Sg>, readable: nat): (bufs: seq<Buf>)
    requires forall i :: 0 <= i < |sg| ==> WellFormed(sg[i].io)
    ensures |bufs| == |sg|
  {
    seq(|sg|, i requires 0 <= i < |sg| => BufOf(sg[i], i >= readable))
  }

  /** The next k indices from idx on are in the table. */
  ghost predicate Walks(desc: seq<Desc>, idx: nat, k: nat)
    decreases k
  {
    k == 0 || (idx < |desc| && Walks(desc, desc[idx].next, k - 1))
  }

  lemma {:induction false} WalksFrame(desc: seq<Desc>, desc': seq<Desc>, idx: nat, k: nat)
    requires Walks(desc, idx, k) && |desc| == |desc'|
    requires forall x :: 0 <= x < |desc| ==> desc'[x].next == desc[x].next
    ensures Walks(desc', idx, k)
    decreases k
  {
    if k > 0 { WalksFrame(desc, desc', desc[idx].next, k - 1); }
  }

  /** Following NEXT from idx stays in the table and ends. */
  ghost predicate Ends(desc: seq<Desc>, idx: nat, fuel: nat)
    decreases fuel
  {
    idx < |desc| && (HasNext(desc[idx].flags) ==> fuel > 0 && Ends(desc, desc[idx].next, fuel - 1))
  }

  /** The memory of a split virtqueue. */
  class VringMem {
    const desc: array<Desc>
    const avail: array<u16>
    const used: array<UsedElem>
    var availFlags: u16
    var availIdx: u16
    var usedEvent: u16
    var usedFlags: u16
    var usedIdx: u16
    var availEvent: u16

    ghost predicate Valid() {
      && Pow2(desc.Length) && desc.Length <= CHAIN_END as int
      && avail.Length == used.Length == desc.Length
      && desc as object != avail && desc as object != used && avail as object != used
    }

    ghost function Value(): Ring
      reads this, desc, avail, used
    {
      Ring(desc[..], availFlags, availIdx, avail[..], usedEvent, usedFlags, usedIdx, used[..], availEvent)
    }

    constructor (desc: array<Desc>, avail: array<u16>, used: array<UsedElem>,
                 availFlags: u16, availIdx: u16, usedFlags: u16, usedIdx: u16)
      ensures this.desc == desc && this.avail == avail && this.used == used
      ensures this.availFlags == availFlags && this.availIdx == availIdx
      ensures this.usedFlags == usedFlags && this.usedIdx == usedIdx
    {
      this.desc, this.avail, this.used := desc, avail, used;
      this.availFlags, this.availIdx, this.usedFlags, this.usedIdx := availFlags, availIdx, usedFlags, usedIdx;
    }
  }

  class Virtqueue {
    const vring: VringMem
    const shm: Region
    const descx: array<DescExtra>
    /** Whether vq_flags has the event index bit. */
    var eventIdx: bool
    var freeCnt: u16
    var head: u16
    var usedCons: u16
    var queued: u16
    var available: u16

    ghost predicate Valid() {
      && vring.Valid() && descx.Length == vring.desc.Length && WellFormed(shm)
      && descx as object != vring.desc && descx as object != vring.avail && descx as object != vring.used
    }

    ghost function Drv(): Driver
      reads this, descx
    {
      Driver(freeCnt, head, usedCons, queued, descx[..])
    }

    ghost function Dev(): Device
      reads this
    {
      Device(available)
    }

    ghost function Mem(): Ring
      reads vring, vring.desc, vring.avail, vring.used
    {
      vring.Value()
    }

    /** vq_ring_init. */
    method RingInit()
      requires vring.Valid()
      modifies vring.desc
      ensures vring.desc[..] == old(InitDesc(vring.desc[..]))
    {
      var size := vring.desc.Length;
      var i := 0;
      while i < size - 1
        invariant 0 <= i <= size - 1
        invariant forall j :: 0 <= j < i ==> vring.desc[j] == old(vring.desc[j]).(next := j + 1)
        invariant forall j :: i <= j < size ==> vring.desc[j] == old(vring.desc[j])
      {
        vring.desc[i] := vring.desc[i].(next := i + 1);
        i := i + 1;
      }
      vring.desc[i] := vring.desc[i].(next := CHAIN_END);
    }

    /** virtqueue_disable_cb. */
    method DisableCallback()
      requires vring.Valid()
      modifies vring`usedEvent, vring`availFlags
      ensures Mem() == DisableCb(old(Mem()), Drv(), eventIdx)
    {
      if eventIdx {
        vring.usedEvent := Minus(usedCons, vring.desc.Length + 1);
      } else {
        vring.availFlags := SetLow(vring.availFlags);
      }
    }

    /** virtqueue_create: a zeroed control block, the free chain linked up, callbacks off. */
    constructor (vring: VringMem, shm: Region)
      requires vring.Valid() && WellFormed(shm)
      modifies vring, vring.desc
      ensures this.vring == vring && this.shm == shm && Valid() && fresh(descx) && !eventIdx
      ensures Drv() == FreshDriver(vring.desc.Length) && Dev() == Device(0)
      ensures Mem() == DisableCb(old(vring.Value().(desc := InitDesc(vring.desc[..]))),
                                 FreshDriver(vring.desc.Length), false)
    {
      this.vring, this.shm := vring, shm;
      descx := new DescExtra[vring.desc.Length](_ => DescExtra(0, 0));
      eventIdx := false;
      freeCnt, head, usedCons, queued, available := vring.desc.Length, 0, 0, 0, 0;
      new;
      RingInit();
      DisableCallback();
    }

    /** vq_ring_add_buffer: fills the links from idx on and returns what follows them. */
    method AddChain(first: u16, sg: seq<Sg>, readable: nat) returns (idx: u16)
      requires Valid() && Walks(vring.desc[..], first, |sg|) && |sg| < W16
      requires forall i :: 0 <= i < |sg| ==> WellFormed(sg[i].io)
      modifies vring.desc
      ensures (vring.desc[..], idx) == WriteChain(old(vring.desc[..]), first, Bufs(sg, readable), 0)
    {
      var i := 0;
      idx := first;
      ghost var bufs := Bufs(sg, readable);
      while i < |sg|
        invariant 0 <= i <= |sg| && Walks(vring.desc[..], idx, |sg| - i)
        invariant WriteChain(vring.desc[..], idx, bufs, i) == WriteChain(old(vring.desc[..]), first, bufs, 0)
      {
        ghost var was := vring.desc[..];
        var flags: u16 := 0;
        if i < |sg| - 1 {
          flags := Or(flags, F_NEXT);
        }
        if i >= readable {
          flags := Or(flags, F_WRITE);
        }
        var next := vring.desc[idx].next;
        vring.desc[idx] := Desc(VirtToPhys(sg[i].io, sg[i].virt), sg[i].len % W32, flags, next);
        assert vring.desc[..] == was[idx := WriteLink(was[idx], bufs, i)];
        WalksFrame(was, vring.desc[..], next, |sg| - i - 1);
        idx := next;
        i := i + 1;
      }
    }

    /** vq_ring_update_avail: the slot first, the index after it. */
    method Publish(head: u16)
      requires Valid()
      modifies vring.avail, vring`availIdx, `queued
      ensures (Mem(), Drv()) == UpdateAvail(old(Mem()), old(Drv()), head)
    {
      var slot := Slot(vring.availIdx, vring.desc.Length);
      vring.avail[slot] := head;
      vring.availIdx := Inc(vring.availIdx);
      queued := Inc(queued);
    }

    /** virtqueue_add_buffer. */
    method Add(sg: seq<Sg>, readable: nat, cookie: nat) returns (status: int)
      requires Valid() && 0 < |sg| < W16 && Walks(vring.desc[..], head, |sg|)
      requires forall i :: 0 <= i < |sg| ==> WellFormed(sg[i].io)
      modifies this, descx, vring.desc, vring.avail, vring`availIdx
      ensures status == 0
      ensures (Mem(), Drv()) == AddBuffer(old(Mem()), old(Drv()), Bufs(sg, readable), cookie)
      ensures available == old(available) && eventIdx == old(eventIdx)
    {
      var first := head;
      descx[first] := DescExtra(cookie, |sg|);
      var idx := AddChain(first, sg, readable);
      head := idx;
      freeCnt := Minus(freeCnt, |sg|);
      Publish(first);
      status := SUCCESS;
    }

    /** virtqueue_add_single_buffer. */
    method AddOne(sg: Sg, writable: bool, cookie: nat, hasNext: bool) returns (status: int)
      requires Valid() && head as int < vring.desc.Length && WellFormed(sg.io)
      modifies this, descx, vring.desc, vring.avail, vring`availIdx
      ensures status == 0
      ensures (Mem(), Drv()) == AddSingle(old(Mem()), old(Drv()), BufOf(sg, writable), cookie, hasNext)
      ensures available == old(available) && eventIdx == old(eventIdx)
    {
      var first := head;
      descx[first] := DescExtra(cookie, 1);
      var flags: u16 := 0;
      if hasNext {
        flags := Or(flags, F_NEXT);
      }
      if writable {
        flags := Or(flags, F_WRITE);
      }
      var next := vring.desc[first].next;
      vring.desc[first] := Desc(VirtToPhys(sg.io, sg.virt), sg.len % W32, flags, next);
      head := next;
      freeCnt := Minus(freeCnt, 1);
      Publish(first);
      status := SUCCESS;
    }

    /** Its loop: to the last link, counting descriptors down. */
    method FollowChain(idx: u16, count: u16) returns (at: u16, left: u16)
      requires Valid() && Ends(vring.desc[..], idx, vring.desc.Length)
      ensures (at, left) == ChainEnd(vring.desc[..], idx, count, vring.desc.Length)
    {
      at, left := idx, count;
      ghost var fuel: nat := vring.desc.Length;
      while HasNext(vring.desc[at].flags)
        invariant Ends(vring.desc[..], at, fuel)
        invariant ChainEnd(vring.desc[..], at, left, fuel) == ChainEnd(vring.desc[..], idx, count, vring.desc.Length)
        decreases fuel
      {
        at := vring.desc[at].next;
        left := Minus(left, 1);
        fuel := fuel - 1;
      }
    }

    /** vq_ring_free_chain. */
    method Free(idx: u16)
      requires Valid() && Ends(vring.desc[..], idx, vring.desc.Length)
      modifies this, descx, vring.desc
      ensures (vring.desc[..], Drv()) == FreeChain(old(vring.desc[..]), old(Drv()), idx)
      ensures available == old(available) && eventIdx == old(eventIdx)
    {
      var nd := descx[idx].ndescs;
      freeCnt := (freeCnt + nd) % W16;
      var left := Minus(nd, 1);
      var at := idx;
      if !IsIndirect(vring.desc[idx].flags) {
        at, left := FollowChain(idx, left);
      }
      descx[idx] := descx[idx].(ndescs := left);
      vring.desc[at] := vring.desc[at].(next := head);
      head := idx;
    }

    /** virtqueue_get_buffer. */
    method Get() returns (out: Out)
      requires Valid()
      requires usedCons != vring.usedIdx ==> Ends(vring.desc[..], NextUsed(Mem(), Drv()).id % W16, vring.desc.Length)
      modifies this, descx, vring.desc
      ensures (Mem(), Drv(), out) == GetBuffer(old(Mem()), old(Drv()))
      ensures available == old(available) && eventIdx == old(eventIdx)
    {
      if usedCons == vring.usedIdx {
        return Empty;
      }
      var slot := Slot(usedCons, vring.desc.Length);
      usedCons := Inc(usedCons);
      var elem := vring.used[slot];
      var idx := elem.id % W16;
      Free(idx);
      var cookie := descx[idx].cookie;
      descx[idx] := descx[idx].(cookie := 0);
      out := Got(cookie, elem.len);
    }

    /** virtqueue_get_available_buffer: the pointer is null when nothing is available. */
    method Take() returns (buffer: u64, out: Out)
      requires Valid() && (available != vring.availIdx ==> NextAvail(Mem(), Dev()) as int < vring.desc.Length)
      modifies `available
      ensures (Dev(), out) == TakeAvailable(old(Mem()), old(Dev()))
      ensures buffer == if out.Took? then PhysToVirt(shm, out.addr) else NULL
    {
      if available == vring.availIdx {
        return NULL, Empty;
      }
      var slot := Slot(available, vring.desc.Length);
      available := Inc(available);
      var head := vring.avail[slot];
      var d := vring.desc[head];
      var offset := SearchOffset(shm, d.addr);
      buffer := Virt(shm, offset);
      out := Took(head, d.addr, d.len);
    }

    /** virtqueue_get_desc_size. */
    method NextSize() returns (len: u32)
      requires Valid() && (available != vring.availIdx ==> NextAvail(Mem(), Dev()) as int < vring.desc.Length)
      ensures len == DescSize(Mem(), Dev())
    {
      if available == vring.availIdx {
        return 0;
      }
      var slot := Slot(available, vring.desc.Length);
      len := vring.desc[vring.avail[slot]].len;
    }

    /** virtqueue_add_consumed_buffer: the element first, the index after it. */
    method Return(head: u16, len: u32) returns (status: int)
      requires Valid()
      modifies vring.used, vring`usedIdx
      ensures (Mem(), status) == AddConsumed(old(Mem()), head, len)
      ensures head as int > vring.desc.Length ==> status == -3007 && Mem() == old(Mem())
    {
      if head as int > vring.desc.Length {
        return ERROR_VRING_NO_BUFF;
      }
      var slot := Slot(vring.usedIdx, vring.desc.Length);
      vring.used[slot] := UsedElem(head, len);
      vring.usedIdx := Inc(vring.usedIdx);
      status := SUCCESS;
    }

    /** virtqueue_enable_cb. */
    method EnableCallback() returns (pended: int)
      requires vring.Valid()
      modifies vring`usedEvent, vring`availFlags
      ensures (Mem(), pended) == EnableCb(old(Mem()), Drv(), eventIdx)
    {
      if eventIdx {
        vring.usedEvent := usedCons;
      } else {
        vring.availFlags := ClearLow(vring.availFlags);
      }
      pended := if Minus(vring.usedIdx, usedCons) > 0 then 1 else 0;
    }

    /** virtqueue_kick: whether the peer was notified. */
    method KickPeer() returns (notified: bool)
      modifies `queued
      ensures (Drv(), notified) == Kick(Mem(), old(Drv()), eventIdx)
      ensures !eventIdx ==> (notified <==> vring.usedFlags % 2 == 0)
    {
      FlagKickIff(Mem(), Drv());
      if eventIdx {
        notified := NeedEvent(vring.availEvent, vring.availIdx, Minus(vring.availIdx, queued));
      } else {
        notified := And(vring.usedFlags, NO_NOTIFY) == 0;
      }
      queued := 0;
    }
  }
}
