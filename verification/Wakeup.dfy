/** Enabling a callback against a peer that publishes: no wakeup is lost. The driver asks for
    the next used entry in one step and reads the used index in a later one; the peer moves
    the used index in one step and tests whether to notify in a later one. */
module Wakeup {
  import opened Words
  import opened Vring
  import opened Events

  /** The driver polls the used ring, has asked to be notified, or sleeps because
      virtqueue_enable_cb returned 0. */
  datatype Mode = Polling | Armed | Asleep

  /** The shared memory, the driver's fields, the used index at the peer's last test, and
      whether a notification is on its way. */
  datatype Link = Link(eventIdx: bool, ring: Ring, drv: Driver, mode: Mode, lastIdx: u16, irq: bool)

  datatype Move =
    | Consume | Disable | Ask | Look | Wake | Dismiss   // driver
    | Put(id: u32, len: u32) | Test                     // peer

  /** The counters behind the indices: entries published, consumed, and tested for. */
  datatype Ghosts = Ghosts(used: nat, cons: nat, seen: nat)

  /** The peer's test (VIRTIO 1.1, section 2.6.7): in event index mode it goes by the event
      index and how far the index moved, otherwise by the flag. */
  predicate Notifies(k: Link) {
    if k.eventIdx then NeedEvent(k.ring.usedEvent, k.ring.usedIdx, k.lastIdx)
    else k.ring.availFlags % 2 == 0 && k.ring.usedIdx != k.lastIdx
  }

  /** When a side may move. The ring has room for what the peer publishes, and the peer tests
      before the index has gone once around. */
  predicate CanMove(k: Link, g: Ghosts, m: Move) {
    match m
    case Consume => k.mode.Polling? && k.drv.usedCons != k.ring.usedIdx
    case Disable => k.mode.Polling?
    case Ask => k.mode.Polling?
    case Look => k.mode.Armed?
    case Wake => k.mode.Asleep? && k.irq
    case Dismiss => !k.mode.Asleep? && k.irq
    case Put(_, _) => g.used - g.cons < |k.ring.desc| && g.used + 1 - g.seen < W16
    case Test => true
  }

  predicate Shape(k: Link) {
    0 < |k.ring.desc| == |k.ring.used| <= CHAIN_END && Pow2(|k.ring.desc|)
  }

  function Next(k: Link, m: Move): Link
    requires Shape(k)
  {
    match m
    case Consume => k.(drv := k.drv.(usedCons := Inc(k.drv.usedCons)))
    case Disable => k.(ring := DisableCb(k.ring, k.drv, k.eventIdx))
    case Ask => k.(ring := Arm(k.ring, k.drv, k.eventIdx), mode := Armed)
    case Look => k.(mode := if Pended(k.ring, k.drv) == 1 then Polling else Asleep)
    case Wake => k.(irq := false, mode := Polling)
    case Dismiss => k.(irq := false)
    case Put(id, len) =>
      k.(ring := k.ring.(used := k.ring.used[Slot(k.ring.usedIdx, |k.ring.desc|) := UsedElem(id, len)],
                         usedIdx := Inc(k.ring.usedIdx)))
    case Test => k.(irq := k.irq || Notifies(k), lastIdx := k.ring.usedIdx)
  }

  function Count(g: Ghosts, m: Move): Ghosts {
    match m
    case Consume => g.(cons := g.cons + 1)
    case Put(_, _) => g.(used := g.used + 1)
    case Test => g.(seen := g.used)
    case _ => g
  }

  /** Two steps of the driver are one call of virtqueue_enable_cb. */
  lemma EnableIsTwoMoves(k: Link)
    requires Shape(k) && k.mode.Polling?
    ensures var (ring', pended) := EnableCb(k.ring, k.drv, k.eventIdx);
            Next(Next(k, Ask), Look) == k.(ring := ring', mode := if pended == 0 then Asleep else Polling)
  {
  }

  /** The driver has asked to hear about the next entry it has not consumed. */
  predicate Asked(k: Link) {
    if k.eventIdx then k.ring.usedEvent == k.drv.usedCons
    else k.ring.availFlags % 2 == 0
  }

  ghost predicate Inv(k: Link, g: Ghosts) {
    && Shape(k)
    && k.ring.usedIdx == g.used % W16 && k.drv.usedCons == g.cons % W16 && k.lastIdx == g.seen % W16
    && g.cons <= g.used <= g.cons + |k.ring.desc| && g.seen <= g.used < g.seen + W16
    && (!k.mode.Polling? ==> Asked(k))
    // what a sleeping driver has not seen has not been tested for yet
    && (k.mode.Asleep? && !k.irq ==> g.seen <= g.cons)
  }

  /** While the driver waits for it, the peer's test notices exactly new entries. */
  lemma AskedTest(k: Link, g: Ghosts)
    requires Inv(k, g) && Asked(k) && g.seen <= g.cons
    ensures Notifies(k) <==> g.used > g.seen && (k.eventIdx ==> g.used > g.cons)
  {
    CounterDistance(g.seen, g.used);
    if k.eventIdx {
      NeedEventIff(g.seen, g.used, k.ring.usedEvent);
      if g.used > g.cons {
        assert Passes(g.seen, g.used, k.ring.usedEvent, g.cons);
      } else {
        forall p: nat | g.seen <= p < g.used ensures p % W16 != g.cons % W16 {
          ModDistinct(p, g.cons, W16);
        }
      }
    }
  }

  lemma PendedIff(k: Link, g: Ghosts)
    requires Inv(k, g)
    ensures Pended(k.ring, k.drv) == 1 <==> g.used > g.cons
    ensures k.drv.usedCons != k.ring.usedIdx <==> g.used > g.cons
  {
    CounterDistance(g.cons, g.used);
  }

  lemma MoveKeeps(k: Link, g: Ghosts, m: Move)
    requires Inv(k, g) && CanMove(k, g, m)
    ensures Inv(Next(k, m), Count(g, m))
  {
    PendedIff(k, g);
    IncWraps(g.cons);
    IncWraps(g.used);
    if m.Test? && k.mode.Asleep? && !k.irq {
      AskedTest(k, g);
    }
  }

  ghost predicate Legal(k: Link, g: Ghosts, run: seq<Move>)
    decreases run
  {
    run == [] || (Shape(k) && CanMove(k, g, run[0]) && Legal(Next(k, run[0]), Count(g, run[0]), run[1..]))
  }

  ghost function Exec(k: Link, g: Ghosts, run: seq<Move>): (Link, Ghosts)
    decreases run
  {
    if run == [] || !Shape(k) then (k, g) else Exec(Next(k, run[0]), Count(g, run[0]), run[1..])
  }

  lemma {:induction false} RunKeeps(k: Link, g: Ghosts, run: seq<Move>)
    requires Inv(k, g) && Legal(k, g, run)
    ensures Inv(Exec(k, g, run).0, Exec(k, g, run).1)
    decreases run
  {
    if run != [] {
      MoveKeeps(k, g, run[0]);
      RunKeeps(Next(k, run[0]), Count(g, run[0]), run[1..]);
    }
  }

  // ----- disabled callbacks

  /** Some test of the run notifies the driver. */
  ghost predicate Notified(k: Link, g: Ghosts, run: seq<Move>)
    decreases run
  {
    && run != [] && Shape(k)
    && ((run[0].Test? && Notifies(k)) || Notified(Next(k, run[0]), Count(g, run[0]), run[1..]))
  }

  /** With the flag set no test of a run notifies until the driver asks again. */
  lemma {:induction false} FlagSilences(k: Link, g: Ghosts, run: seq<Move>)
    requires !k.eventIdx && k.ring.availFlags % 2 == 1 && Ask !in run
    ensures !Notified(k, g, run)
    decreases run
  {
    if run != [] && Shape(k) {
      assert Ask !in run[1..];
      FlagSilences(Next(k, run[0]), Count(g, run[0]), run[1..]);
    }
  }

  /** So it is after virtqueue_disable_cb. */
  lemma DisabledIsSilent(k: Link, g: Ghosts, run: seq<Move>)
    requires Shape(k) && !k.eventIdx && Ask !in run
    ensures !Notified(k, g, [Disable] + run)
  {
    assert ([Disable] + run)[1..] == run;
    FlagSilences(Next(k, Disable), g, run);
  }

  lemma {:induction false} SeenGrows(k: Link, g: Ghosts, run: seq<Move>)
    requires Inv(k, g) && Legal(k, g, run)
    ensures g.seen <= Exec(k, g, run).1.seen
    decreases run
  {
    if run != [] {
      MoveKeeps(k, g, run[0]);
      SeenGrows(Next(k, run[0]), Count(g, run[0]), run[1..]);
    }
  }

  /** A test notifies exactly when it covers the next position that shows as the event. */
  lemma TestAt(k: Link, g: Ghosts, p: nat)
    requires Inv(k, g) && k.eventIdx && k.ring.usedEvent == p % W16 && g.seen <= p < g.seen + W16
    ensures Notifies(k) <==> p < g.used
  {
    NeedEventIff(g.seen, g.used, k.ring.usedEvent);
    if p < g.used {
      assert Passes(g.seen, g.used, k.ring.usedEvent, p);
    } else {
      forall x: nat | g.seen <= x < g.used ensures x % W16 != p % W16 { ModDistinct(x, p, W16); }
    }
  }

  lemma {:induction false} NotifiedAt(k: Link, g: Ghosts, run: seq<Move>, p: nat)
    requires Inv(k, g) && Legal(k, g, run) && Ask !in run && Disable !in run
    requires k.eventIdx && k.ring.usedEvent == p % W16 && g.seen <= p < g.seen + W16
    ensures Notified(k, g, run) <==> p < Exec(k, g, run).1.seen
    decreases run
  {
    if run != [] {
      var k', g' := Next(k, run[0]), Count(g, run[0]);
      MoveKeeps(k, g, run[0]);
      TestAt(k, g, p);
      if run[0].Test? && p < g.used {
        SeenGrows(k', g', run[1..]);
      } else {
        NotifiedAt(k', g', run[1..], p);
      }
    }
  }

  /** The first position not tested for yet that shows as the event virtqueue_disable_cb
      leaves: one before the consumed entries by the size of the table. */
  function Awaited(g: Ghosts, n: nat): nat { g.seen + (g.cons - n - 1 - g.seen) % W16 }

  lemma EventIs(cons: nat, n: nat, seen: nat)
    ensures (seen + (cons - n - 1 - seen) % W16) % W16 == Minus(cons % W16, n + 1)
  {
    var x, q := cons - n - 1 - seen, (cons - n - 1 - seen) / W16;
    assert seen + x % W16 == cons - (n + 1) - q * W16;
    assert cons % W16 - (n + 1) == (seen + x % W16) + (q - cons / W16) * W16;
    ModShift(seen + x % W16, W16, q - cons / W16);
  }

  lemma AfterDisable(k: Link, g: Ghosts)
    requires Inv(k, g) && k.eventIdx
    ensures Next(k, Disable).ring.usedEvent == Awaited(g, |k.ring.desc|) % W16
    ensures g.seen <= Awaited(g, |k.ring.desc|) < g.seen + W16
  {
    EventIs(g.cons, |k.ring.desc|, g.seen);
  }

  /** In event index mode a disabled callback does fire: over every run in which the driver
      goes on consuming, but does not ask, it is notified exactly when the peer has tested
      past that position. */
  lemma DisabledUntil(k: Link, g: Ghosts, run: seq<Move>)
    requires Inv(k, g) && k.eventIdx && Legal(k, g, [Disable] + run) && Ask !in run && Disable !in run
    ensures Notified(k, g, [Disable] + run)
            <==> Exec(k, g, [Disable] + run).1.seen > Awaited(g, |k.ring.desc|)
  {
    assert ([Disable] + run)[1..] == run;
    AfterDisable(k, g);
    MoveKeeps(k, g, Disable);
    NotifiedAt(Next(k, Disable), g, run, Awaited(g, |k.ring.desc|));
  }

  lemma AwaitedFrom(g: Ghosts, n: nat)
    requires g.cons <= g.used == g.seen && g.used - g.cons + n < W16
    ensures Awaited(g, n) + 1 == g.used + (W16 - n - (g.used - g.cons))
  {
    DivModUnique(g.cons - n - 1 - g.seen, W16, -1, W16 - n - 1 - (g.used - g.cons));
  }

  /** When the peer has tested all it published, and u entries are unconsumed, that is with
      the entry that makes 2^16 - n - u more. */
  lemma DisabledFor(k: Link, g: Ghosts, run: seq<Move>)
    requires Inv(k, g) && k.eventIdx && Legal(k, g, [Disable] + run) && Ask !in run && Disable !in run
    requires g.seen == g.used && g.used - g.cons + |k.ring.desc| < W16
    ensures Notified(k, g, [Disable] + run)
            <==> Exec(k, g, [Disable] + run).1.seen >= g.used + (W16 - |k.ring.desc| - (g.used - g.cons))
  {
    AwaitedFrom(g, |k.ring.desc|);
    DisabledUntil(k, g, run);
  }

  /** A queue on which nothing has happened yet. */
  ghost predicate Fresh(k: Link) {
    && Shape(k) && k.mode.Polling? && !k.irq
    && k.ring.usedIdx == 0 && k.drv.usedCons == 0 && k.lastIdx == 0
  }

  /** No lost wakeup. After any run, a driver that sleeps without a notification on its way
      has consumed everything the peer has tested for, and if the peer has published more
      its next test notifies the driver. */
  lemma NoLostWakeup(k0: Link, run: seq<Move>)
    requires Fresh(k0) && Legal(k0, Ghosts(0, 0, 0), run)
    ensures var (k, g) := Exec(k0, Ghosts(0, 0, 0), run);
            k.mode.Asleep? && !k.irq ==>
              && g.seen <= g.cons
              && (k.ring.usedIdx == k.lastIdx ==> k.drv.usedCons == k.ring.usedIdx)
              && (k.drv.usedCons != k.ring.usedIdx ==> Notifies(k))
  {
    RunKeeps(k0, Ghosts(0, 0, 0), run);
    var (k, g) := Exec(k0, Ghosts(0, 0, 0), run);
    if k.mode.Asleep? && !k.irq {
      AskedTest(k, g);
      PendedIff(k, g);
      CounterDistance(g.seen, g.used);
    }
  }
}
