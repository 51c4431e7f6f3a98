/** Whole runs of the two sides, from the moment the queue is created. */
module Runs {
  import opened Words
  import opened Vring
  import opened Ownership
  import opened Protocol
  import opened Simulation

  // ----- creation

  /** The free chain that vq_ring_init builds, whatever the memory held before. */
  function InitDesc(desc: seq<Desc>): (r: seq<Desc>)
    requires |desc| <= CHAIN_END
    ensures |r| == |desc|
  {
    seq(|desc|, i requires 0 <= i < |desc| => desc[i].(next := if i < |desc| - 1 then i + 1 else CHAIN_END))
  }

  function FreshDriver(n: u16): Driver {
    Driver(n, 0, 0, 0, seq(n, _ => DescExtra(0, 0)))
  }

  /** Both control blocks zeroed, the free chain linked, the rest of the memory as found. */
  function Start(r: Ring): Sys
    requires |r.desc| <= CHAIN_END
  {
    Sys(r.(desc := InitDesc(r.desc)), FreshDriver(|r.desc|), Device(0), DriverIdle, DeviceIdle)
  }

  function StartView(n: nat): View {
    View(seq(n, i => i), [], [], 0, [], [], [], [], 0, [])
  }

  lemma {:induction false} RangeIsSeq(n: nat)
    ensures multiset(seq(n, i => i)) == Range(n)
  {
    if n > 0 {
      RangeIsSeq(n - 1);
      assert seq(n, i => i) == seq(n - 1, i => i) + [n - 1];
    }
  }

  lemma StartFreeList(desc: seq<Desc>)
    requires |desc| <= CHAIN_END
    ensures FreeList(InitDesc(desc), At(seq(|desc|, i => i), 0), seq(|desc|, i => i))
  {
    var free := seq(|desc|, i => i);
    forall j | 0 <= j < |desc| ensures InitDesc(desc)[free[j]].next == At(free, j + 1) {}
  }

  lemma StartOwned(r: Ring)
    requires 0 < |r.desc| <= CHAIN_END
    ensures Owned(Start(r), StartView(|r.desc|))
  {
    RangeIsSeq(|r.desc|);
    StartFreeList(r.desc);
    assert Live(StartView(|r.desc|)) == [];
  }

  lemma StartRings(r: Ring)
    requires Pow2(|r.desc|) && |r.desc| <= CHAIN_END && |r.avail| == |r.used| == |r.desc|
    requires r.availIdx == 0 && r.usedIdx == 0
    ensures Rings(Start(r), StartView(|r.desc|)) && History(StartView(|r.desc|))
  {
  }

  /** A new queue is in its invariant exactly when the memory came with both ring indices
      zero: creation resets its own indices but not the shared ones. */
  lemma StartIffZeroed(r: Ring)
    requires Pow2(|r.desc|) && |r.desc| <= 0x8000 && |r.avail| == |r.used| == |r.desc|
    ensures Inv(Start(r), StartView(|r.desc|)) <==> r.availIdx == 0 && r.usedIdx == 0
  {
    StartOwned(r);
    if r.availIdx == 0 && r.usedIdx == 0 {
      StartRings(r);
    }
  }

  // ----- runs

  function Do(s: Sys, a: Action): (Sys, Out) {
    if Wf(s) && CanStep(s, a) then Step(s, a) else (s, Silent)
  }

  ghost function DoView(v: View, a: Action): (View, Out) {
    if Waiting(v) && Allowed(v, a) then ViewStep(v, a) else (v, Silent)
  }

  /** The machine after a run, and everything its calls handed out. */
  function Exec(s: Sys, run: seq<Action>): Sys
    decreases run
  {
    if run == [] then s else Exec(Do(s, run[0]).0, run[1..])
  }

  function Outs(s: Sys, run: seq<Action>): seq<Out>
    decreases run
  {
    if run == [] then [] else [Do(s, run[0]).1] + Outs(Do(s, run[0]).0, run[1..])
  }

  ghost function ExecView(v: View, run: seq<Action>): View
    decreases run
  {
    if run == [] then v else ExecView(DoView(v, run[0]).0, run[1..])
  }

  ghost function OutsView(v: View, run: seq<Action>): seq<Out>
    decreases run
  {
    if run == [] then [] else [DoView(v, run[0]).1] + OutsView(DoView(v, run[0]).0, run[1..])
  }

  /** A run: each side goes through its calls in program order, in any interleaving, the
      driver never asks for more than is free and the device returns only what it holds. */
  ghost predicate Legal(s: Sys, v: View, run: seq<Action>)
    decreases run
  {
    run == [] ||
    (AtPc(s, run[0]) && Obeys(v, run[0]) && Legal(Do(s, run[0]).0, DoView(v, run[0]).0, run[1..]))
  }

  lemma DoSimulates(s: Sys, v: View, a: Action)
    requires Inv(s, v) && AtPc(s, a) && Obeys(v, a)
    ensures Inv(Do(s, a).0, DoView(v, a).0) && Do(s, a).1 == DoView(v, a).1
  {
    StepSimulates(s, v, a);
  }

  /** The ring refines the abstract queues: over every run it hands out the same heads,
      addresses, lengths and cookies, and ends in a state that the invariant relates. */
  lemma {:induction false} RunSimulates(s: Sys, v: View, run: seq<Action>)
    requires Inv(s, v) && Legal(s, v, run)
    ensures Inv(Exec(s, run), ExecView(v, run))
    ensures Outs(s, run) == OutsView(v, run)
    decreases run
  {
    if run != [] {
      DoSimulates(s, v, run[0]);
      RunSimulates(Do(s, run[0]).0, DoView(v, run[0]).0, run[1..]);
    }
  }

  // ----- what a run asked for and what it was given

  datatype Request = Request(bufs: seq<Buf>, cookie: nat)
  datatype Return = Return(head: nat, len: u32)

  /** The requests of virtqueue_add_buffer, in call order. */
  function Requests(run: seq<Action>): seq<Request> {
    if run == [] then []
    else (if run[0].AddBegin? then [Request(run[0].bufs, run[0].cookie)] else []) + Requests(run[1..])
  }

  /** The calls of virtqueue_add_consumed_buffer, in call order. */
  function Returns(run: seq<Action>): seq<Return> {
    if run == [] then []
    else (if run[0].ReturnElem? then [Return(run[0].head, run[0].len)] else []) + Returns(run[1..])
  }

  /** What virtqueue_get_available_buffer handed out, in order. */
  function Takes(outs: seq<Out>): seq<Out> {
    if outs == [] then [] else (if outs[0].Took? then [outs[0]] else []) + Takes(outs[1..])
  }

  /** What virtqueue_get_buffer handed out, in order. */
  function Gots(outs: seq<Out>): seq<Out> {
    if outs == [] then [] else (if outs[0].Got? then [outs[0]] else []) + Gots(outs[1..])
  }

  function RequestOf(c: Chain): Request { Request(c.bufs, c.cookie) }

  function TakeOf(c: Chain): Out {
    if c.idxs == [] || c.bufs == [] then Empty else Took(Head(c), c.bufs[0].addr, c.bufs[0].len)
  }

  function ReturnOf(d: Done): Return {
    Return(if d.chain.idxs == [] then 0 else Head(d.chain), d.len)
  }

  function GotOf(d: Done): Out { Got(d.chain.cookie, d.len) }

  function Map<A, B>(f: A -> B, s: seq<A>): (r: seq<B>)
    ensures |r| == |s| && forall i :: 0 <= i < |s| ==> r[i] == f(s[i])
  {
    seq(|s|, i requires 0 <= i < |s| => f(s[i]))
  }

  lemma MapPlus<A, B>(f: A -> B, s: seq<A>, t: seq<A>)
    ensures Map(f, s + t) == Map(f, s) + Map(f, t)
  {
  }

  // The abstract machine's own record of the same four lists.
  ghost function Published(v: View): seq<Chain> { v.added + v.staging }
  ghost function Taken(v: View): seq<Chain>
    requires Waiting(v) && |v.taking| <= v.taken
  { v.added[..v.taken - |v.taking|] }
  ghost function Returned(v: View): seq<Done> { v.returned + v.finishing }
  ghost function Gotten(v: View): seq<Done>
    requires Waiting(v) && |v.reclaiming| <= v.got
  { v.returned[..v.got - |v.reclaiming|] }

  ghost predicate Recorded(v: View) {
    && Waiting(v)
    && |v.taking| <= 1 && (v.taking != [] ==> v.taken > 0 && v.taking == [v.added[v.taken - 1]])
    && |v.reclaiming| <= 1 && (v.reclaiming != [] ==> v.got > 0 && v.reclaiming == [v.returned[v.got - 1].chain])
  }

  lemma InvRecorded(s: Sys, v: View)
    requires Rings(s, v)
    ensures Recorded(v)
  {
  }

  ghost predicate Extends(v: View, v': View, ch: seq<Chain>, tk: seq<Chain>, rt: seq<Done>, gt: seq<Done>)
    requires Recorded(v) && Recorded(v')
  {
    && Published(v') == Published(v) + ch && Taken(v') == Taken(v) + tk
    && Returned(v') == Returned(v) + rt && Gotten(v') == Gotten(v) + gt
  }

  // What one step appends to each list.
  ghost function NewChains(v: View, a: Action): seq<Chain>
    requires Waiting(v) && Allowed(v, a)
  { if a.AddBegin? then ViewStep(v, a).0.staging else [] }
  ghost function NewTakes(v: View, a: Action): seq<Chain> { if a.TakeDesc? then v.taking else [] }
  ghost function NewReturns(v: View, a: Action): seq<Done>
    requires Waiting(v) && Allowed(v, a)
  { if a.ReturnElem? then ViewStep(v, a).0.finishing else [] }
  ghost function NewGots(v: View, a: Action): seq<Done>
    requires Waiting(v)
  { if a.GetFree? && v.got > 0 then [v.returned[v.got - 1]] else [] }

  lemma {:induction false} StepExtendsDriver(v: View, a: Action)
    requires Recorded(v) && Allowed(v, a) && Recorded(ViewStep(v, a).0)
    ensures var v' := ViewStep(v, a).0;
            Published(v') == Published(v) + NewChains(v, a) && Gotten(v') == Gotten(v) + NewGots(v, a)
  {
  }

  lemma {:induction false} StepExtendsDevice(v: View, a: Action)
    requires Recorded(v) && Allowed(v, a) && Recorded(ViewStep(v, a).0)
    ensures var v' := ViewStep(v, a).0;
            Taken(v') == Taken(v) + NewTakes(v, a) && Returned(v') == Returned(v) + NewReturns(v, a)
  {
  }

  lemma {:induction false} StepExtends(v: View, a: Action)
    requires Recorded(v) && Allowed(v, a) && Recorded(ViewStep(v, a).0)
    ensures Extends(v, ViewStep(v, a).0, NewChains(v, a), NewTakes(v, a), NewReturns(v, a), NewGots(v, a))
  {
    StepExtendsDriver(v, a);
    StepExtendsDevice(v, a);
  }

  /** What a step appends is what its action asked for and what its result says. */
  lemma {:induction false} StepRecords(v: View, a: Action)
    requires Recorded(v) && Allowed(v, a)
    ensures Map(RequestOf, NewChains(v, a)) == Requests([a])
    ensures Map(TakeOf, NewTakes(v, a)) == Takes([ViewStep(v, a).1])
    ensures Map(ReturnOf, NewReturns(v, a)) == Returns([a])
    ensures Map(GotOf, NewGots(v, a)) == Gots([ViewStep(v, a).1])
  {
  }

  lemma {:induction false} ActionsSplit(run: seq<Action>)
    requires run != []
    ensures Requests(run) == Requests([run[0]]) + Requests(run[1..])
    ensures Returns(run) == Returns([run[0]]) + Returns(run[1..])
  {
    assert [run[0]][1..] == [];
    assert Requests([]) == [] && Returns([]) == [];
  }

  lemma TakesOfOne(o: Out)
    ensures Takes([o]) == if o.Took? then [o] else []
    ensures Gots([o]) == if o.Got? then [o] else []
  {
    assert [o][1..] == [];
    assert Takes([]) == [] && Gots([]) == [];
  }

  lemma {:induction false} OutsSplit(outs: seq<Out>)
    requires outs != []
    ensures Takes(outs) == Takes([outs[0]]) + Takes(outs[1..])
    ensures Gots(outs) == Gots([outs[0]]) + Gots(outs[1..])
  {
    TakesOfOne(outs[0]);
  }

  ghost predicate Appends(v: View, v': View, run: seq<Action>, outs: seq<Out>)
    requires Recorded(v) && Recorded(v')
  {
    && Map(RequestOf, Published(v')) == Map(RequestOf, Published(v)) + Requests(run)
    && Map(TakeOf, Taken(v')) == Map(TakeOf, Taken(v)) + Takes(outs)
    && Map(ReturnOf, Returned(v')) == Map(ReturnOf, Returned(v)) + Returns(run)
    && Map(GotOf, Gotten(v')) == Map(GotOf, Gotten(v)) + Gots(outs)
  }

  lemma StepAppends(v: View, a: Action)
    requires Recorded(v) && Allowed(v, a) && Recorded(ViewStep(v, a).0)
    ensures Appends(v, ViewStep(v, a).0, [a], [ViewStep(v, a).1])
  {
    StepExtends(v, a);
    StepRecords(v, a);
    MapPlus(RequestOf, Published(v), NewChains(v, a));
    MapPlus(TakeOf, Taken(v), NewTakes(v, a));
    MapPlus(ReturnOf, Returned(v), NewReturns(v, a));
    MapPlus(GotOf, Gotten(v), NewGots(v, a));
  }

  lemma Chained<A>(x: seq<A>, x1: seq<A>, x2: seq<A>, d1: seq<A>, d2: seq<A>, d: seq<A>)
    requires x1 == x + d1 && x2 == x1 + d2 && d == d1 + d2
    ensures x2 == x + d
  {
  }

  lemma AppendsTrans(v: View, v1: View, v2: View, run: seq<Action>, outs: seq<Out>)
    requires Recorded(v) && Recorded(v1) && Recorded(v2) && run != [] && outs != []
    requires Appends(v, v1, [run[0]], [outs[0]]) && Appends(v1, v2, run[1..], outs[1..])
    ensures Appends(v, v2, run, outs)
  {
    ActionsSplit(run);
    OutsSplit(outs);
    Chained(Map(RequestOf, Published(v)), Map(RequestOf, Published(v1)), Map(RequestOf, Published(v2)),
            Requests([run[0]]), Requests(run[1..]), Requests(run));
    Chained(Map(TakeOf, Taken(v)), Map(TakeOf, Taken(v1)), Map(TakeOf, Taken(v2)),
            Takes([outs[0]]), Takes(outs[1..]), Takes(outs));
    Chained(Map(ReturnOf, Returned(v)), Map(ReturnOf, Returned(v1)), Map(ReturnOf, Returned(v2)),
            Returns([run[0]]), Returns(run[1..]), Returns(run));
    Chained(Map(GotOf, Gotten(v)), Map(GotOf, Gotten(v1)), Map(GotOf, Gotten(v2)),
            Gots([outs[0]]), Gots(outs[1..]), Gots(outs));
  }

  lemma {:induction false} RunAppends(s: Sys, v: View, run: seq<Action>)
    requires Inv(s, v) && Legal(s, v, run)
    ensures Recorded(v) && Recorded(ExecView(v, run))
    ensures Appends(v, ExecView(v, run), run, OutsView(v, run))
    decreases run
  {
    InvRecorded(s, v);
    if run != [] {
      var (s1, v1) := (Do(s, run[0]).0, DoView(v, run[0]).0);
      DoSimulates(s, v, run[0]);
      Enabled(s, v, run[0]);
      InvRecorded(s1, v1);
      StepAppends(v, run[0]);
      RunAppends(s1, v1, run[1..]);
      AppendsTrans(v, v1, ExecView(v, run), run, OutsView(v, run));
    }
  }

  // ----- first in, first out

  ghost predicate Fresh(r: Ring) {
    && Pow2(|r.desc|) && |r.desc| <= CHAIN_END && |r.avail| == |r.used| == |r.desc|
    && r.availIdx == 0 && r.usedIdx == 0
  }

  /** A run from the creation of the queue. */
  ghost predicate FromStart(r: Ring, run: seq<Action>) {
    Fresh(r) && Legal(Start(r), StartView(|r.desc|), run)
  }

  lemma FinalView(r: Ring, run: seq<Action>) returns (v: View)
    requires FromStart(r, run)
    ensures Inv(Exec(Start(r), run), v) && Recorded(v)
    ensures Map(RequestOf, Published(v)) == Requests(run)
    ensures Map(TakeOf, Taken(v)) == Takes(Outs(Start(r), run))
    ensures Map(ReturnOf, Returned(v)) == Returns(run)
    ensures Map(GotOf, Gotten(v)) == Gots(Outs(Start(r), run))
  {
    StartIffZeroed(r);
    var v0 := StartView(|r.desc|);
    RunSimulates(Start(r), v0, run);
    RunAppends(Start(r), v0, run);
    v := ExecView(v0, run);
  }

  lemma TakesAreTook(outs: seq<Out>)
    ensures forall j :: 0 <= j < |Takes(outs)| ==> Takes(outs)[j].Took?
    ensures forall j :: 0 <= j < |Gots(outs)| ==> Gots(outs)[j].Got?
  {
  }

  /** The device is given the first buffer of every request, in the order of the requests:
      none is lost, repeated or overtaken, however often the indices wrap. */
  lemma TakesInOrder(r: Ring, run: seq<Action>)
    requires FromStart(r, run)
    ensures var t, q := Takes(Outs(Start(r), run)), Requests(run);
            && |t| <= |q|
            && forall j :: 0 <= j < |t| ==>
                 t[j].Took? && q[j].bufs != [] && t[j].addr == q[j].bufs[0].addr && t[j].len == q[j].bufs[0].len
  {
    var v := FinalView(r, run);
    var outs := Outs(Start(r), run);
    TakesAreTook(outs);
    forall j | 0 <= j < |Takes(outs)| ensures Requests(run)[j] == RequestOf(Taken(v)[j]) {
      assert Published(v)[j] == Taken(v)[j];
    }
  }

  /** The driver gets buffers back in the order in which the device returned them, each with
      the length it was returned with. */
  lemma GotsInOrder(r: Ring, run: seq<Action>)
    requires FromStart(r, run)
    ensures var g, b := Gots(Outs(Start(r), run)), Returns(run);
            |g| <= |b| && forall j :: 0 <= j < |g| ==> g[j].Got? && g[j].len == b[j].len
  {
    var v := FinalView(r, run);
    TakesAreTook(Outs(Start(r), run));
    forall j | 0 <= j < |Gotten(v)| ensures Returned(v)[j] == Gotten(v)[j] {}
  }

  // ----- exactly once

  lemma MapTakeOut<A, B>(f: A -> B, s: seq<A>, k: nat)
    requires k < |s|
    ensures multiset(Map(f, s)) == multiset{f(s[k])} + multiset(Map(f, s[..k] + s[k + 1..]))
  {
    TakeOut(Map(f, s), k);
    assert Map(f, s)[..k] + Map(f, s)[k + 1..] == Map(f, s[..k] + s[k + 1..]);
  }

  lemma {:induction false} BagMap<A, B>(f: A -> B, s: seq<A>, t: seq<A>)
    requires multiset(s) == multiset(t)
    ensures multiset(Map(f, s)) == multiset(Map(f, t))
    decreases |s|
  {
    if s == [] {
      assert |multiset(t)| == 0;
    } else {
      assert s == [s[0]] + s[1..];
      var k := Locate(s[0], s[1..], t);
      BagMap(f, s[1..], t[..k] + t[k + 1..]);
      MapTakeOut(f, t, k);
      assert Map(f, s) == [f(s[0])] + Map(f, s[1..]);
    }
  }

  lemma Balance<T>(st: multiset<T>, av: multiset<T>, tk: multiset<T>, h: multiset<T>, f: multiset<T>,
                   u: multiset<T>, rc: multiset<T>, g: multiset<T>)
    ensures (tk + h + f + (g + rc + u)) + av + st == (st + av + tk + h + f + u + rc) + g
  {
  }

  lemma AccountedReturned(v: View)
    requires Recorded(v)
    ensures multiset(ChainsOf(v.returned))
         == multiset(ChainsOf(Gotten(v))) + multiset(v.reclaiming) + multiset(ChainsOf(v.returned[v.got..]))
    ensures multiset(ChainsOf(Returned(v))) == multiset(ChainsOf(v.returned)) + multiset(ChainsOf(v.finishing))
  {
    assert ChainsOf(v.returned) == ChainsOf(Gotten(v)) + v.reclaiming + ChainsOf(v.returned[v.got..]);
    assert ChainsOf(Returned(v)) == ChainsOf(v.returned) + ChainsOf(v.finishing);
  }

  /** Everything ever published is in flight or was handed back. */
  lemma Accounted(v: View)
    requires Recorded(v) && History(v)
    ensures multiset(Published(v)) == multiset(Live(v)) + multiset(ChainsOf(Gotten(v)))
  {
    AccountedReturned(v);
    LiveIsBag(v);
    assert v.added == v.added[..v.taken] + v.added[v.taken..];
    Balance(multiset(v.staging), multiset(v.added[v.taken..]), multiset(v.taking), multiset(v.held),
            multiset(ChainsOf(v.finishing)), multiset(ChainsOf(v.returned[v.got..])),
            multiset(v.reclaiming), multiset(ChainsOf(Gotten(v))));
  }

  lemma Regroup<T>(all: multiset<T>, tk: multiset<T>, k: multiset<T>, h: multiset<T>, f: multiset<T>, r: multiset<T>)
    requires all == tk + h + f + r && all == k + tk
    ensures k == h + (r + f)
  {
    assert all - tk == k && all - tk == h + (r + f);
  }

  lemma AccountedTaken(v: View)
    requires Recorded(v)
    ensures multiset(v.added[..v.taken]) == multiset(Taken(v)) + multiset(v.taking)
  {
    assert v.added[..v.taken] == Taken(v) + v.taking;
  }

  /** Everything the device was given it still holds or has returned. */
  lemma AccountedHeld(v: View)
    requires Recorded(v) && History(v)
    ensures multiset(Taken(v)) == multiset(v.held) + multiset(ChainsOf(Returned(v)))
  {
    AccountedReturned(v);
    AccountedTaken(v);
    Regroup(multiset(v.added[..v.taken]), multiset(v.taking), multiset(Taken(v)), multiset(v.held),
            multiset(ChainsOf(v.finishing)), multiset(ChainsOf(v.returned)));
  }

  function CookieOf(c: Chain): nat { c.cookie }

  function CookieOfRequest(q: Request): nat { q.cookie }

  function CookieOfOut(o: Out): nat { if o.Got? then o.cookie else 0 }

  lemma CookiesBalance(v: View)
    requires Recorded(v) && History(v)
    ensures multiset(Map(CookieOf, Published(v)))
         == multiset(Map(CookieOf, Live(v))) + multiset(Map(CookieOf, ChainsOf(Gotten(v))))
  {
    Accounted(v);
    BagMap(CookieOf, Published(v), Live(v) + ChainsOf(Gotten(v)));
    MapPlus(CookieOf, Live(v), ChainsOf(Gotten(v)));
  }

  lemma CookiesOfLists(v: View)
    requires Recorded(v)
    ensures Map(CookieOf, Published(v)) == Map(CookieOfRequest, Map(RequestOf, Published(v)))
    ensures Map(CookieOf, ChainsOf(Gotten(v))) == Map(CookieOfOut, Map(GotOf, Gotten(v)))
  {
  }

  lemma {:induction false} ExecKeepsSize(s: Sys, run: seq<Action>)
    ensures |Exec(s, run).ring.desc| == |s.ring.desc|
    decreases run
  {
    if run != [] { ExecKeepsSize(Do(s, run[0]).0, run[1..]); }
  }

  lemma OwnTotal(desc: seq<Desc>, descx: seq<DescExtra>, head: nat, freeCnt: int, free: seq<nat>, live: seq<Chain>)
    requires Own(desc, descx, head, freeCnt, free, live)
    ensures freeCnt + |Sum(live)| == |desc|
  {
    assert |multiset(free) + Sum(live)| == |Range(|desc|)|;
  }

  lemma OwnedTotal(s: Sys, v: View)
    requires Waiting(v) && Owned(s, v)
    ensures Settled(s).2 + |Sum(Live(v))| == |s.ring.desc|
    ensures AllOk(Settled(s).0, s.drv.descx, Live(v))
  {
    var (desc', head', free') := Settled(s);
    OwnTotal(desc', s.drv.descx, head', free', v.free, Live(v));
  }

  /** Each cookie given to virtqueue_add_buffer comes back from virtqueue_get_buffer once:
      at any time the cookies handed in are the cookies handed back plus those of the chains
      in flight; the chains in flight and the free descriptors make up the table. */
  lemma ExactlyOnce(r: Ring, run: seq<Action>) returns (inFlight: seq<Chain>)
    requires FromStart(r, run)
    ensures var s := Exec(Start(r), run);
            && multiset(Map(CookieOfRequest, Requests(run)))
            == multiset(Map(CookieOf, inFlight)) + multiset(Map(CookieOfOut, Gots(Outs(Start(r), run))))
            && (s.dpc.Linking? ==> s.dpc.i <= |s.dpc.bufs|)
            && Settled(s).2 + |Sum(inFlight)| == |r.desc|
            && AllOk(Settled(s).0, s.drv.descx, inFlight)
  {
    var v := FinalView(r, run);
    var s := Exec(Start(r), run);
    inFlight := Live(v);
    CookiesBalance(v);
    CookiesOfLists(v);
    ExecKeepsSize(Start(r), run);
    OwnedTotal(s, v);
  }

  /** When the driver is idle and all descriptors are free again, every cookie has come back
      exactly as often as it was handed in. */
  lemma AllReturned(r: Ring, run: seq<Action>)
    requires FromStart(r, run)
    requires var s := Exec(Start(r), run); s.dpc.DriverIdle? && s.drv.freeCnt == |r.desc|
    ensures multiset(Map(CookieOfRequest, Requests(run)))
         == multiset(Map(CookieOfOut, Gots(Outs(Start(r), run))))
  {
    var live := ExactlyOnce(r, run);
    SumSize(live);
    assert Map(CookieOf, live) == [];
  }

  /** The places of a in b, each used once. */
  ghost predicate Places<T>(at: seq<nat>, a: seq<T>, b: seq<T>) {
    && |at| == |a|
    && (forall j :: 0 <= j < |a| ==> at[j] < |b| && b[at[j]] == a[j])
    && (forall i, j :: 0 <= i < j < |a| ==> at[i] != at[j])
  }

  /** Places in a sequence without its i-th element, and in the whole. */
  lemma Reinsert<T>(at: seq<nat>, a: seq<T>, b: seq<T>, i: nat) returns (at': seq<nat>)
    requires i < |b| && Places(at, a, b[..i] + b[i + 1..])
    ensures Places(at', a, b) && forall j :: 0 <= j < |a| ==> at'[j] != i
  {
    at' := seq(|at|, j requires 0 <= j < |at| => if at[j] < i then at[j] else at[j] + 1);
  }

  lemma DropOne<T>(m: multiset<T>, n: multiset<T>, x: T)
    requires m + multiset{x} <= multiset{x} + n
    ensures m <= n
  {
    forall y | y in m ensures m[y] <= n[y] {
      assert (m + multiset{x})[y] <= (multiset{x} + n)[y];
    }
  }

  lemma {:induction false} Embed<T>(a: seq<T>, b: seq<T>) returns (at: seq<nat>)
    requires multiset(a) <= multiset(b)
    ensures Places(at, a, b)
    decreases |a|
  {
    if a == [] {
      at := [];
    } else {
      var n := |a| - 1;
      assert a == a[..n] + [a[n]];
      assert a[n] in multiset(b);
      var i :| 0 <= i < |b| && b[i] == a[n];
      TakeOut(b, i);
      DropOne(multiset(a[..n]), multiset(b[..i] + b[i + 1..]), a[n]);
      var at0 := Embed(a[..n], b[..i] + b[i + 1..]);
      var at1 := Reinsert(at0, a[..n], b, i);
      at := at1 + [i];
    }
  }

  /** A returned chain is one that was taken, each take standing for one return. */
  lemma WhereTaken(v: View) returns (at: seq<nat>)
    requires Recorded(v) && History(v)
    ensures |at| == |Returned(v)|
    ensures forall j :: 0 <= j < |at| ==> at[j] < |Taken(v)| && Taken(v)[at[j]] == Returned(v)[j].chain
    ensures forall i, j :: 0 <= i < j < |at| ==> at[i] != at[j]
  {
    AccountedHeld(v);
    at := Embed(ChainsOf(Returned(v)), Taken(v));
  }

  /** What comes back is what the device was given and returned: to each buffer got back
      belongs a take of its own, with the head the device returned, of a request with the
      cookie handed back; the length is that of the return. */
  lemma GotsMatchTakes(r: Ring, run: seq<Action>) returns (at: seq<nat>)
    requires FromStart(r, run)
    ensures var t, g := Takes(Outs(Start(r), run)), Gots(Outs(Start(r), run));
            var q, b := Requests(run), Returns(run);
            && |at| == |g| <= |b|
            && (forall i, j :: 0 <= i < j < |at| ==> at[i] != at[j])
            && forall j :: 0 <= j < |g| ==>
                 && at[j] < |t| && at[j] < |q| && t[at[j]].Took? && g[j].Got?
                 && t[at[j]].head == b[j].head && g[j].cookie == q[at[j]].cookie && g[j].len == b[j].len
  {
    var v := FinalView(r, run);
    var outs := Outs(Start(r), run);
    TakesAreTook(outs);
    var all := WhereTaken(v);
    at := all[..|Gotten(v)|];
    forall j | 0 <= j < |at|
      ensures at[j] < |Taken(v)| && Takes(outs)[at[j]].head == Returns(run)[j].head
      ensures Gots(outs)[j].cookie == Requests(run)[at[j]].cookie && Gots(outs)[j].len == Returns(run)[j].len
    {
      assert Returned(v)[j] == Gotten(v)[j];
      assert Published(v)[at[j]] == Taken(v)[at[j]];
      assert Takes(outs)[at[j]] == TakeOf(Taken(v)[at[j]]);
    }
  }
}
