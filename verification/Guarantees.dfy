/** What the invariant of the two-sided ring means for its users. */
module Guarantees {
  import opened Words
  import opened Vring
  import opened Ownership
  import opened Protocol
  import opened Simulation
  import opened Runs
  import opened Calls
  import opened Events

  // ----- one owner for every descriptor

  lemma {:induction false} InSum(cs: seq<Chain>, d: nat) returns (k: nat)
    requires d in Sum(cs)
    ensures k < |cs| && d in cs[k].idxs
  {
    if d in multiset(cs[0].idxs) {
      k := 0;
    } else {
      var j := InSum(cs[1..], d);
      k := j + 1;
    }
  }

  lemma OwnerOf(n: nat, free: seq<nat>, live: seq<Chain>, d: nat)
    requires Partition(n, free, live) && d < n
    ensures d in free || exists k :: 0 <= k < |live| && d in live[k].idxs
  {
    assert Range(n)[d] == 1;
    assert d in multiset(free) + Sum(live);
    if d !in free {
      assert d !in multiset(free);
      var k := InSum(live, d);
    }
  }

  /** Every descriptor is either free or in one chain in flight, in one place. */
  lemma OneOwner(s: Sys, v: View, d: nat)
    requires Inv(s, v) && d < |s.ring.desc|
    ensures d in v.free || exists k :: 0 <= k < |Live(v)| && d in Live(v)[k].idxs
    ensures d in v.free ==> forall k :: 0 <= k < |Live(v)| ==> d !in Live(v)[k].idxs
    ensures forall j, k :: 0 <= j < k < |Live(v)| && d in Live(v)[j].idxs ==> d !in Live(v)[k].idxs
    ensures forall i, j :: 0 <= i < j < |v.free| ==> v.free[i] != v.free[j]
    ensures forall k, i, j :: 0 <= k < |Live(v)| && 0 <= i < j < |Live(v)[k].idxs| ==>
              Live(v)[k].idxs[i] != Live(v)[k].idxs[j]
  {
    var n, live := |s.ring.desc|, Live(v);
    assert Partition(n, v.free, live);
    OwnerOf(n, v.free, live, d);
    if d in v.free {
      forall k | 0 <= k < |live| ensures d !in live[k].idxs { FreeApart(v.free, live, n, k, d); }
    }
    forall j, k | 0 <= j < k < |live| && d in live[j].idxs ensures d !in live[k].idxs {
      LiveApart(v.free, live, n, j, k, d);
    }
    assert multiset(v.free) <= Range(n);
    Distinct(v.free, n);
    forall k | 0 <= k < |live|
      ensures forall i, j :: 0 <= i < j < |live[k].idxs| ==> live[k].idxs[i] != live[k].idxs[j]
    {
      LiveDistinct(v.free, live, n, k);
    }
  }

  // ----- the checks that are compiled out

  /** The head of the free chain: the terminator exactly when nothing is free, otherwise a
      valid index whose entry holds no cookie and no count. */
  lemma FreeHeadChecks(s: Sys, v: View)
    requires Inv(s, v) && !s.dpc.Linking?
    ensures s.drv.freeCnt == 0 <==> s.drv.head == 0x8000
    ensures s.drv.freeCnt > 0 ==> s.drv.head < |s.ring.desc| && s.drv.descx[s.drv.head] == DescExtra(0, 0)
  {
    var live := Live(v);
    if |v.free| > 0 {
      var h := v.free[0];
      forall c | c in live && c.idxs != [] ensures Head(c) != h {
        var k :| 0 <= k < |live| && live[k] == c;
        FreeApart(v.free, live, |s.ring.desc|, k, h);
      }
      assert !Heads(live, h);
    }
  }

  /** The used count that virtqueue_nused reads off the wrapped indices. */
  function Nused(r: Ring, d: Driver): u16 { Minus(r.usedIdx, d.usedCons) }

  lemma NusedOf(u: u16, c: u16, got: nat, returned: nat)
    requires u == returned % W16 && c == got % W16 && got <= returned < got + W16
    ensures Minus(u, c) == returned - got
  {
    CounterDistance(got, returned);
  }

  /** It is the length of the used queue and never more than the table has entries. */
  lemma NusedExact(s: Sys, v: View)
    requires Inv(s, v)
    ensures Nused(s.ring, s.drv) == |v.returned| - v.got <= |s.ring.desc|
  {
    Occupancy(s, v);
    NusedOf(s.ring.usedIdx, s.drv.usedCons, v.got, |v.returned|);
  }

  // ----- the whole chain

  /** How a consumer reads the chain at idx by VIRTIO 1.1, section 2.6.5: address and length of
      each link, write-only if bit 1 of its flags is set, followed by another if bit 0 is. */
  function ReadChain(desc: seq<Desc>, idx: u16, fuel: nat): seq<Buf>
    decreases fuel
  {
    if fuel == 0 || idx >= |desc| then []
    else
      var d := desc[idx];
      [Buf(d.addr, d.len, d.flags / 2 % 2 == 1)]
      + if d.flags % 2 == 1 then ReadChain(desc, d.next, fuel - 1) else []
  }

  lemma {:induction false} ReadChainFrom(desc: seq<Desc>, descx: seq<DescExtra>, c: Chain, j: nat, fuel: nat)
    requires ChainOk(desc, descx, c) && |desc| <= CHAIN_END
    requires j < |c.idxs| <= fuel + j
    ensures c.idxs[j] < |desc| && ReadChain(desc, c.idxs[j], fuel) == c.bufs[j..]
    decreases fuel
  {
    assert LinkOk(desc, c, j);
    LinkFlagsBits(j + 1 < |c.idxs|, c.bufs[j].write);
    FlagBits(desc[c.idxs[j]].flags);
    assert c.bufs[j] == Buf(c.bufs[j].addr, c.bufs[j].len, c.bufs[j].write);
    if j + 1 < |c.idxs| {
      assert LinkOk(desc, c, j + 1);
      ReadChainFrom(desc, descx, c, j + 1, fuel - 1);
      assert c.bufs[j..] == [c.bufs[j]] + c.bufs[j + 1..];
    } else {
      assert c.bufs[j..] == [c.bufs[j]];
    }
  }

  lemma ChainShort(s: Sys, v: View, c: Chain)
    requires Waiting(v) && Owned(s, v) && c in LiveBag(v)
    ensures |c.idxs| <= |s.ring.desc|
  {
    LiveIsBag(v);
    assert c in multiset(Live(v));
    var k :| 0 <= k < |Live(v)| && Live(v)[k] == c;
    ChainFits(v.free, Live(v), |s.ring.desc|, k);
  }

  /** Whatever the driver does meanwhile, the device reads from the head of a chain it took
      the buffers of the request, all of them, in order. */
  lemma HeldChainReads(s: Sys, v: View, c: Chain)
    requires Inv(s, v) && (c in v.held || c in v.taking)
    ensures c.idxs != [] && Head(c) < |s.ring.desc|
    ensures ReadChain(s.ring.desc, Head(c), |s.ring.desc|) == c.bufs
  {
    assert c in multiset(v.held) || c in multiset(v.taking);
    CurrentOk(s, v, c);
    ChainShort(s, v, c);
    ReadChainFrom(s.ring.desc, s.drv.descx, c, 0, |s.ring.desc|);
  }

  // ----- one writer for every field

  predicate ByDriver(a: Action) {
    !a.TakeSee? && !a.TakeSlot? && !a.TakeDesc? && !a.ReturnElem? && !a.ReturnBump?
  }

  /** Only the table and the available ring changed, and the driver's own fields. */
  predicate DriverWrote(s: Sys, s': Sys) {
    && s'.ring == s.ring.(desc := s'.ring.desc, avail := s'.ring.avail, availIdx := s'.ring.availIdx)
    && s'.dev == s.dev && s'.vpc == s.vpc
  }

  /** Only the used ring changed, and the device's own fields. */
  predicate DeviceWrote(s: Sys, s': Sys) {
    && s'.ring == s.ring.(used := s'.ring.used, usedIdx := s'.ring.usedIdx)
    && s'.drv == s.drv && s'.dpc == s.dpc
  }

  lemma OneStepWrites(s: Sys, a: Action)
    ensures if ByDriver(a) then DriverWrote(s, Do(s, a).0) else DeviceWrote(s, Do(s, a).0)
  {
  }

  /** Over any run of its steps a side writes only its own part of the shared memory, and
      neither touches flags or event indices (VIRTIO 1.1, section 2.6). */
  lemma {:induction false} OneWriter(s: Sys, run: seq<Action>)
    ensures (forall i :: 0 <= i < |run| ==> ByDriver(run[i])) ==> DriverWrote(s, Exec(s, run))
    ensures (forall i :: 0 <= i < |run| ==> !ByDriver(run[i])) ==> DeviceWrote(s, Exec(s, run))
    ensures var r, r' := s.ring, Exec(s, run).ring;
            && r'.availFlags == r.availFlags && r'.usedEvent == r.usedEvent
            && r'.usedFlags == r.usedFlags && r'.availEvent == r.availEvent
    decreases run
  {
    if run != [] {
      OneStepWrites(s, run[0]);
      OneWriter(Do(s, run[0]).0, run[1..]);
    }
  }

  lemma SameQueues(s: Sys, v: View, r: Ring, d: Driver)
    requires Inv(s, v) && d == s.drv.(queued := d.queued)
    requires r == s.ring.(availFlags := r.availFlags, usedEvent := r.usedEvent)
    ensures Inv(s.(ring := r, drv := d), v)
  {
  }

  /** Nor do kicks and the calls about callbacks disturb the queues: they write the driver's own
      flags and event index, and the count of chains to kick for. */
  lemma SignalsKeepQueues(s: Sys, v: View, eventIdx: bool)
    requires Inv(s, v)
    ensures var r, d := s.ring, s.drv;
            var off, on, d' := DisableCb(r, d, eventIdx), EnableCb(r, d, eventIdx).0, Kick(r, d, eventIdx).0;
            && off == r.(availFlags := off.availFlags, usedEvent := off.usedEvent) && Inv(s.(ring := off), v)
            && on == r.(availFlags := on.availFlags, usedEvent := on.usedEvent) && Inv(s.(ring := on), v)
            && d' == d.(queued := 0) && Inv(s.(drv := d'), v)
  {
    var r, d := s.ring, s.drv;
    SameQueues(s, v, DisableCb(r, d, eventIdx), d);
    SameQueues(s, v, EnableCb(r, d, eventIdx).0, d);
    SameQueues(s, v, r, Kick(r, d, eventIdx).0);
  }
}
