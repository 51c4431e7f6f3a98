/** The two sides of one virtqueue as a state machine. Every call of util/virtqueue.c is cut
    at its fences: a slot or a descriptor is written in one step and the index that
    publishes it moves in a later one, and the two sides interleave between any two steps
    (sequential consistency, which the fences ask for). */
module Protocol {
  import opened Words
  import opened Vring
  import opened Ownership

  // ----- the concrete machine

  /** Where the driver stands inside virtqueue_add_buffer or virtqueue_get_buffer. */
  datatype DriverPc =
    | DriverIdle
    | Linking(bufs: seq<Buf>, i: nat, idx: u16, first: u16)
    | Linked(head: u16)
    | Slotted
    | SawUsed(slot: nat)
    | ReadUsed(id: u16, len: u32)

  /** Where the device stands inside virtqueue_get_available_buffer or
      virtqueue_add_consumed_buffer. */
  datatype DevicePc =
    | DeviceIdle
    | SawAvail(slot: nat)
    | ReadAvail(head: u16)
    | Placed

  datatype Sys = Sys(ring: Ring, drv: Driver, dev: Device, dpc: DriverPc, vpc: DevicePc)

  datatype Action =
    | AddBegin(bufs: seq<Buf>, cookie: nat) | AddLink | AddLinked | AddSlot | AddBump
    | GetSee | GetRead | GetFree
    | TakeSee | TakeSlot | TakeDesc
    | ReturnElem(head: u16, len: u32) | ReturnBump

  /** What a call hands to its caller. */
  datatype Out = Silent | Empty | Took(head: nat, addr: u64, len: u32) | Got(cookie: nat, len: u32)

  predicate Shaped(r: Ring, d: Driver) {
    Pow2(|r.desc|) && |r.desc| <= CHAIN_END && |r.avail| == |r.used| == |r.desc| == |d.descx|
  }

  predicate Wf(s: Sys) { Shaped(s.ring, s.drv) }

  /** The side that acts has its program counter there. */
  predicate AtPc(s: Sys, a: Action) {
    match a
    case AddBegin(_, _) => s.dpc.DriverIdle?
    case AddLink => s.dpc.Linking? && s.dpc.i < |s.dpc.bufs|
    case AddLinked => s.dpc.Linking? && s.dpc.i == |s.dpc.bufs|
    case AddSlot => s.dpc.Linked?
    case AddBump => s.dpc.Slotted?
    case GetSee => s.dpc.DriverIdle?
    case GetRead => s.dpc.SawUsed?
    case GetFree => s.dpc.ReadUsed?
    case TakeSee => s.vpc.DeviceIdle?
    case TakeSlot => s.vpc.SawAvail?
    case TakeDesc => s.vpc.ReadAvail?
    case ReturnElem(_, _) => s.vpc.DeviceIdle?
    case ReturnBump => s.vpc.Placed?
  }

  /** Every index the action dereferences is in its table, and a request fits. */
  predicate InTable(s: Sys, a: Action) {
    var n := |s.ring.desc|;
    match a
    case AddBegin(bufs, _) => 1 <= |bufs| <= s.drv.freeCnt && s.drv.head < n
    case AddLink => s.dpc.Linking? && s.dpc.idx < n
    case GetRead => s.dpc.SawUsed? && s.dpc.slot < n
    case GetFree => s.dpc.ReadUsed? && s.dpc.id < n
    case TakeSlot => s.vpc.SawAvail? && s.vpc.slot < n
    case TakeDesc => s.vpc.ReadAvail? && s.vpc.head < n
    case ReturnElem(head, _) => head <= n
    case _ => true
  }

  predicate CanStep(s: Sys, a: Action) { AtPc(s, a) && InTable(s, a) }

  function Step(s: Sys, a: Action): (r: (Sys, Out))
    requires Wf(s) && CanStep(s, a)
    ensures Wf(r.0) && |r.0.ring.desc| == |s.ring.desc|
  {
    var n, r, d := |s.ring.desc|, s.ring, s.drv;
    match a
    case AddBegin(bufs, cookie) =>
      (s.(drv := d.(descx := d.descx[d.head := DescExtra(cookie, |bufs|)]),
          dpc := Linking(bufs, 0, d.head, d.head)), Silent)
    case AddLink =>
      var Linking(bufs, i, idx, first) := s.dpc;
      (s.(ring := r.(desc := r.desc[idx := WriteLink(r.desc[idx], bufs, i)]),
          dpc := Linking(bufs, i + 1, r.desc[idx].next, first)), Silent)
    case AddLinked =>
      (s.(drv := d.(head := s.dpc.idx, freeCnt := Minus(d.freeCnt, |s.dpc.bufs|)),
          dpc := Linked(s.dpc.first)), Silent)
    case AddSlot =>
      (s.(ring := r.(avail := r.avail[Slot(r.availIdx, n) := s.dpc.head]), dpc := Slotted), Silent)
    case AddBump =>
      (s.(ring := r.(availIdx := Inc(r.availIdx)), drv := d.(queued := Inc(d.queued)),
          dpc := DriverIdle), Silent)
    case GetSee =>
      if d.usedCons == r.usedIdx then (s, Empty)
      else (s.(drv := d.(usedCons := Inc(d.usedCons)), dpc := SawUsed(Slot(d.usedCons, n))), Silent)
    case GetRead =>
      (s.(dpc := ReadUsed(r.used[s.dpc.slot].id % W16, r.used[s.dpc.slot].len)), Silent)
    case GetFree =>
      var (desc', drv', cookie) := Reclaim(r.desc, d, s.dpc.id);
      (s.(ring := r.(desc := desc'), drv := drv', dpc := DriverIdle), Got(cookie, s.dpc.len))
    case TakeSee =>
      if s.dev.available == r.availIdx then (s, Empty)
      else (s.(dev := Device(Inc(s.dev.available)), vpc := SawAvail(Slot(s.dev.available, n))), Silent)
    case TakeSlot =>
      (s.(vpc := ReadAvail(r.avail[s.vpc.slot])), Silent)
    case TakeDesc =>
      (s.(vpc := DeviceIdle), Took(s.vpc.head, r.desc[s.vpc.head].addr, r.desc[s.vpc.head].len))
    case ReturnElem(head, len) =>
      (s.(ring := r.(used := r.used[Slot(r.usedIdx, n) := UsedElem(head, len)]), vpc := Placed), Silent)
    case ReturnBump =>
      (s.(ring := r.(usedIdx := Inc(r.usedIdx)), vpc := DeviceIdle), Silent)
  }

  // ----- the abstract machine: two queues and a set of held buffers, no index ever wraps

  /** A chain the device has finished with, and the length it reported. */
  datatype Done = Done(chain: Chain, len: u32)

  /** Everything ever published is in `added`, everything ever returned is in `returned`.
      The available queue is added[taken..], the used queue is returned[got..]. A chain is
      in staging, taking, finishing or reclaiming while one call works on it. */
  datatype View = View(
    free: seq<nat>, staging: seq<Chain>,
    added: seq<Chain>, taken: nat, taking: seq<Chain>, held: seq<Chain>,
    finishing: seq<Done>, returned: seq<Done>, got: nat, reclaiming: seq<Chain>)

  function ChainsOf(ds: seq<Done>): (cs: seq<Chain>)
    ensures |cs| == |ds| && forall i :: 0 <= i < |ds| ==> cs[i] == ds[i].chain
  {
    seq(|ds|, i requires 0 <= i < |ds| => ds[i].chain)
  }

  predicate Waiting(v: View) { v.taken <= |v.added| && v.got <= |v.returned| }

  /** The chains in flight. */
  function Live(v: View): seq<Chain>
    requires Waiting(v)
  {
    v.staging
    + (v.added[v.taken..] + v.taking + v.held + ChainsOf(v.finishing) + ChainsOf(v.returned[v.got..]))
    + v.reclaiming
  }

  ghost predicate Holds(v: View, head: nat) {
    exists k :: 0 <= k < |v.held| && v.held[k].idxs != [] && Head(v.held[k]) == head
  }

  ghost function HeldIndex(held: seq<Chain>, head: nat): (k: nat)
    requires exists k :: 0 <= k < |held| && held[k].idxs != [] && Head(held[k]) == head
    ensures k < |held| && held[k].idxs != [] && Head(held[k]) == head
  {
    if held[0].idxs != [] && Head(held[0]) == head then 0
    else
      var k0 :| 0 <= k0 < |held| && held[k0].idxs != [] && Head(held[k0]) == head;
      assert held[1..][k0 - 1] == held[k0];
      1 + HeldIndex(held[1..], head)
  }

  /** What the callers have to respect: a request fits the free descriptors, and the device
      returns only what it holds. */
  ghost predicate Obeys(v: View, a: Action) {
    && (a.AddBegin? ==> 1 <= |a.bufs| <= |v.free|)
    && (a.ReturnElem? ==> Holds(v, a.head))
  }

  /** The stage each action starts from. */
  ghost predicate Allowed(v: View, a: Action) {
    match a
    case AddBegin(bufs, _) => v.staging == [] && v.reclaiming == [] && 1 <= |bufs| <= |v.free|
    case AddLink => |v.staging| == 1
    case AddLinked => |v.staging| == 1
    case AddSlot => |v.staging| == 1
    case AddBump => |v.staging| == 1
    case GetSee => v.staging == [] && v.reclaiming == []
    case GetRead => |v.reclaiming| == 1
    case GetFree => |v.reclaiming| == 1 && 0 < v.got <= |v.returned|
    case TakeSee => v.taking == [] && v.finishing == []
    case TakeSlot => |v.taking| == 1
    case TakeDesc => |v.taking| == 1 && v.taking[0].idxs != [] && v.taking[0].bufs != []
    case ReturnElem(head, _) => v.taking == [] && v.finishing == [] && Holds(v, head)
    case ReturnBump => |v.finishing| == 1
  }

  ghost function ViewStep(v: View, a: Action): (r: (View, Out))
    requires Waiting(v) && Allowed(v, a)
    ensures Waiting(r.0)
  {
    match a
    case AddBegin(bufs, cookie) =>
      (v.(free := v.free[|bufs|..], staging := [NewChain(v.free, bufs, cookie)]), Silent)
    case AddLink => (v, Silent)
    case AddLinked => (v, Silent)
    case AddSlot => (v, Silent)
    case AddBump => (v.(staging := [], added := v.added + v.staging), Silent)
    case GetSee =>
      if v.got == |v.returned| then (v, Empty)
      else (v.(got := v.got + 1, reclaiming := [v.returned[v.got].chain]), Silent)
    case GetRead => (v, Silent)
    case GetFree =>
      (v.(free := v.reclaiming[0].idxs + v.free, reclaiming := []),
       Got(v.reclaiming[0].cookie, v.returned[v.got - 1].len))
    case TakeSee =>
      if v.taken == |v.added| then (v, Empty)
      else (v.(taken := v.taken + 1, taking := [v.added[v.taken]]), Silent)
    case TakeSlot => (v, Silent)
    case TakeDesc =>
      var c := v.taking[0];
      (v.(taking := [], held := v.held + [c]), Took(Head(c), c.bufs[0].addr, c.bufs[0].len))
    case ReturnElem(head, len) =>
      var k := HeldIndex(v.held, head);
      (v.(held := v.held[..k] + v.held[k + 1..], finishing := [Done(v.held[k], len)]), Silent)
    case ReturnBump => (v.(finishing := [], returned := v.returned + v.finishing), Silent)
  }

  // ----- how the two machines agree

  /** The 16-bit indices are the counters of the abstract machine, wrapped. */
  ghost predicate Counters(s: Sys, v: View) {
    && s.ring.availIdx == |v.added| % W16 && s.dev.available == v.taken % W16
    && s.ring.usedIdx == |v.returned| % W16 && s.drv.usedCons == v.got % W16
  }

  /** Every published and not yet taken position still holds its head. */
  ghost predicate AvailWindow(s: Sys, v: View)
    requires Wf(s)
  {
    forall p :: v.taken <= p < |v.added| ==>
      v.added[p].idxs != [] && s.ring.avail[p % |s.ring.desc|] == Head(v.added[p])
  }

  ghost predicate ElemOf(e: UsedElem, d: Done) {
    d.chain.idxs != [] && e.id == Head(d.chain) && e.len == d.len
  }

  ghost predicate UsedWindow(s: Sys, v: View)
    requires Wf(s)
  {
    forall p :: v.got <= p < |v.returned| ==> ElemOf(s.ring.used[p % |s.ring.desc|], v.returned[p])
  }

  /** The table as it will be when the driver has finished linking the chain it works on. */
  function Settled(s: Sys): (r: (seq<Desc>, u16, int))
    requires s.dpc.Linking? ==> s.dpc.i <= |s.dpc.bufs|
    ensures |r.0| == |s.ring.desc|
  {
    match s.dpc
    case Linking(bufs, i, idx, _) =>
      var (desc', head') := WriteChain(s.ring.desc, idx, bufs, i);
      (desc', head', s.drv.freeCnt - |bufs|)
    case _ => (s.ring.desc, s.drv.head, s.drv.freeCnt)
  }

  ghost predicate LinkingPhase(s: Sys, c: Chain) {
    s.dpc.Linking? &&
    var Linking(bufs, i, idx, first) := s.dpc;
    && i <= |bufs| == |c.idxs| && c.bufs == bufs && bufs != []
    && Path(s.ring.desc, c.idxs) && first == Head(c)
    && (i < |bufs| ==> idx == c.idxs[i])
    && forall x :: 0 <= x < |s.ring.desc| && x !in c.idxs ==> s.ring.desc[x] == Settled(s).0[x]
  }

  ghost predicate DriverPhase(s: Sys, v: View)
    requires Wf(s) && Waiting(v)
  {
    var n := |s.ring.desc|;
    match s.dpc
    case DriverIdle => v.staging == [] && v.reclaiming == []
    case Linking(_, _, _, _) => |v.staging| == 1 && v.reclaiming == [] && LinkingPhase(s, v.staging[0])
    case Linked(head) =>
      |v.staging| == 1 && v.reclaiming == [] && v.staging[0].idxs != [] && head == Head(v.staging[0])
    case Slotted =>
      && |v.staging| == 1 && v.reclaiming == [] && v.staging[0].idxs != []
      && s.ring.avail[|v.added| % n] == Head(v.staging[0])
    case SawUsed(slot) =>
      && v.staging == [] && v.got > 0 && v.reclaiming == [v.returned[v.got - 1].chain]
      && slot == (v.got - 1) % n && ElemOf(s.ring.used[slot], v.returned[v.got - 1])
    case ReadUsed(id, len) =>
      && v.staging == [] && v.got > 0 && v.reclaiming == [v.returned[v.got - 1].chain]
      && ElemOf(UsedElem(id, len), v.returned[v.got - 1])
  }

  ghost predicate DevicePhase(s: Sys, v: View)
    requires Wf(s) && Waiting(v)
  {
    var n := |s.ring.desc|;
    match s.vpc
    case DeviceIdle => v.taking == [] && v.finishing == []
    case SawAvail(slot) =>
      && v.finishing == [] && v.taken > 0 && v.taking == [v.added[v.taken - 1]]
      && v.taking[0].idxs != [] && slot == (v.taken - 1) % n && s.ring.avail[slot] == Head(v.taking[0])
    case ReadAvail(head) =>
      && v.finishing == [] && v.taken > 0 && v.taking == [v.added[v.taken - 1]]
      && v.taking[0].idxs != [] && head == Head(v.taking[0])
    case Placed =>
      && v.taking == [] && |v.finishing| == 1
      && ElemOf(s.ring.used[|v.returned| % n], v.finishing[0])
  }

  /** Everything the device ever took is still in its hands or was returned, once. */
  ghost predicate History(v: View)
    requires Waiting(v)
  {
    multiset(v.added[..v.taken])
 == multiset(v.taking) + multiset(v.held) + multiset(ChainsOf(v.finishing)) + multiset(ChainsOf(v.returned))
  }

  ghost predicate Owned(s: Sys, v: View)
    requires Waiting(v)
  {
    (s.dpc.Linking? ==> s.dpc.i <= |s.dpc.bufs|) &&
    var (desc', head', free') := Settled(s);
    Own(desc', s.drv.descx, head', free', v.free, Live(v))
  }

  /** The part of the invariant about rings and program counters. */
  ghost predicate Rings(s: Sys, v: View) {
    && Wf(s) && Waiting(v)
    && Counters(s, v) && AvailWindow(s, v) && UsedWindow(s, v)
    && DriverPhase(s, v) && DevicePhase(s, v)
  }

  ghost predicate Inv(s: Sys, v: View) {
    Rings(s, v) && Owned(s, v) && History(v)
  }
}
