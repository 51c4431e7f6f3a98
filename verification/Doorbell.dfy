/** Kicks against a device that sleeps: no publication is missed. The driver publishes in one
    step and kicks in a later one; the device asks to be notified in one step and reads the
    available index in a later one. */
module Doorbell {
  import opened Words
  import opened Vring
  import opened Protocol
  import opened Calls
  import opened Events
  import opened Wakeup

  /** The shared memory, the fields of both sides, what the device is doing, and whether a
      notification is on its way to it. */
  datatype Bell = Bell(eventIdx: bool, ring: Ring, drv: Driver, dev: Device, mode: Mode, rung: bool)

  datatype Act =
    | Publish(head: u16) | KickNow                                          // driver
    | TakeOne | Suppress(event: u16) | AskKick | LookAvail | WakeUp | Drop  // device

  /** The counters behind the indices: chains published, taken, and kicked for. */
  datatype Tally = Tally(added: nat, taken: nat, kicked: nat)

  predicate Formed(k: Bell) { Shaped(k.ring, k.drv) }

  /** When a side may act. The table has room for what the driver publishes, and with the event
      index the driver kicks before the index has gone once around. */
  predicate CanAct(k: Bell, g: Tally, a: Act)
    requires Formed(k)
  {
    match a
    case Publish(_) =>
      g.added - g.taken < |k.ring.desc| && (k.eventIdx ==> g.added + 1 - g.kicked < W16)
    case KickNow => true
    case TakeOne => k.mode.Polling? && k.dev.available != k.ring.availIdx
    case Suppress(_) => k.mode.Polling?
    case AskKick => k.mode.Polling?
    case LookAvail => k.mode.Armed?
    case WakeUp => k.mode.Asleep? && k.rung
    case Drop => !k.mode.Asleep? && k.rung
  }

  /** The device goes by VIRTIO 1.1, section 2.6.10: with the event index it names the chain it
      waits for, otherwise it clears the lowest bit of its flags. */
  function After(k: Bell, a: Act): Bell
    requires Formed(k)
  {
    match a
    case Publish(head) =>
      var (ring', drv') := UpdateAvail(k.ring, k.drv, head);
      k.(ring := ring', drv := drv')
    case KickNow =>
      var (drv', notified) := Kick(k.ring, k.drv, k.eventIdx);
      k.(drv := drv', rung := k.rung || notified)
    case TakeOne => k.(dev := Device(Inc(k.dev.available)))
    case Suppress(event) =>
      k.(ring := if k.eventIdx then k.ring.(availEvent := event)
                 else k.ring.(usedFlags := SetLow(k.ring.usedFlags)))
    case AskKick =>
      k.(mode := Armed,
         ring := if k.eventIdx then k.ring.(availEvent := k.dev.available)
                 else k.ring.(usedFlags := ClearLow(k.ring.usedFlags)))
    case LookAvail => k.(mode := if k.dev.available != k.ring.availIdx then Polling else Asleep)
    case WakeUp => k.(rung := false, mode := Polling)
    case Drop => k.(rung := false)
  }

  function Tallied(g: Tally, a: Act): Tally {
    match a
    case Publish(_) => g.(added := g.added + 1)
    case KickNow => g.(kicked := g.added)
    case TakeOne => g.(taken := g.taken + 1)
    case _ => g
  }

  /** The device has asked to hear about the next chain. */
  predicate AskedFor(k: Bell) {
    if k.eventIdx then k.ring.availEvent == k.dev.available else k.ring.usedFlags % 2 == 0
  }

  ghost predicate Tuned(k: Bell, g: Tally) {
    && Formed(k) && Pending(k.ring, k.drv, g.kicked, g.added) && k.dev.available == g.taken % W16
    && g.taken <= g.added <= g.taken + |k.ring.desc|
    && (k.eventIdx ==> g.added < g.kicked + W16)
    && (!k.mode.Polling? ==> AskedFor(k))
    // what a sleeping device has not seen has not been kicked for yet
    && (k.mode.Asleep? && !k.rung ==> g.kicked <= g.taken)
  }

  /** virtqueue_add_buffer adds the chain to those that the next kick is for. */
  lemma AddPends(r: Ring, d: Driver, bufs: seq<Buf>, cookie: nat, lo: nat, hi: nat)
    requires Shaped(r, d) && d.head < |r.desc| && |bufs| < W16 && Pending(r, d, lo, hi)
    ensures var (r', d') := AddBuffer(r, d, bufs, cookie); Pending(r', d', lo, hi + 1)
  {
    IncWraps(hi);
    IncWraps(hi - lo);
  }

  lemma PublishPends(r: Ring, d: Driver, head: u16, lo: nat, hi: nat)
    requires Shaped(r, d) && Pending(r, d, lo, hi)
    ensures var (r', d') := UpdateAvail(r, d, head); Pending(r', d', lo, hi + 1)
  {
    IncWraps(hi);
    IncWraps(hi - lo);
  }

  /** To a device that has asked, a kick answers: without the event index always, with it
      exactly when there is a chain it has not taken. */
  lemma AskedKick(k: Bell, g: Tally)
    requires Tuned(k, g) && AskedFor(k) && g.kicked <= g.taken
    ensures Kick(k.ring, k.drv, k.eventIdx).1 <==> (k.eventIdx ==> g.added > g.taken)
  {
    if k.eventIdx {
      KickIff(k.ring, k.drv, g.kicked, g.added);
      if g.added > g.taken {
        assert Passes(g.kicked, g.added, k.ring.availEvent, g.taken);
      } else {
        forall p: nat | g.kicked <= p < g.added ensures p % W16 != g.taken % W16 { ModDistinct(p, g.taken, W16); }
      }
    } else {
      FlagKickIff(k.ring, k.drv);
    }
  }

  lemma ActKeeps(k: Bell, g: Tally, a: Act)
    requires Tuned(k, g) && CanAct(k, g, a)
    ensures Tuned(After(k, a), Tallied(g, a))
  {
    CounterDistance(g.taken, g.added);
    match a
    case Publish(head) => PublishPends(k.ring, k.drv, head, g.kicked, g.added);
    case TakeOne => IncWraps(g.taken);
    case KickNow => if k.mode.Asleep? && !k.rung { AskedKick(k, g); }
    case _ =>
  }

  ghost predicate LegalActs(k: Bell, g: Tally, run: seq<Act>)
    decreases run
  {
    run == []
    || (Formed(k) && CanAct(k, g, run[0]) && LegalActs(After(k, run[0]), Tallied(g, run[0]), run[1..]))
  }

  ghost function Acted(k: Bell, g: Tally, run: seq<Act>): (Bell, Tally)
    decreases run
  {
    if run == [] || !Formed(k) then (k, g) else Acted(After(k, run[0]), Tallied(g, run[0]), run[1..])
  }

  lemma {:induction false} ActsKeep(k: Bell, g: Tally, run: seq<Act>)
    requires Tuned(k, g) && LegalActs(k, g, run)
    ensures Tuned(Acted(k, g, run).0, Acted(k, g, run).1)
    decreases run
  {
    if run != [] {
      ActKeeps(k, g, run[0]);
      ActsKeep(After(k, run[0]), Tallied(g, run[0]), run[1..]);
    }
  }

  /** A queue on which nothing has happened yet. */
  ghost predicate Silent(k: Bell) {
    && Formed(k) && k.mode.Polling? && !k.rung
    && k.ring.availIdx == 0 && k.dev.available == 0 && k.drv.queued == 0
  }

  /** No lost kick. After any run, a device that sleeps without a notification on its way has
      taken every chain kicked for, and if there are others the next kick notifies it. */
  lemma NoLostKick(k0: Bell, run: seq<Act>)
    requires Silent(k0) && LegalActs(k0, Tally(0, 0, 0), run)
    ensures var (k, g) := Acted(k0, Tally(0, 0, 0), run);
            k.mode.Asleep? && !k.rung ==>
              && g.kicked <= g.taken
              && (k.drv.queued == 0 && k.eventIdx ==> k.dev.available == k.ring.availIdx)
              && (k.dev.available != k.ring.availIdx ==> Kick(k.ring, k.drv, k.eventIdx).1)
  {
    ActsKeep(k0, Tally(0, 0, 0), run);
    var (k, g) := Acted(k0, Tally(0, 0, 0), run);
    if k.mode.Asleep? && !k.rung {
      AskedKick(k, g);
      CounterDistance(g.taken, g.added);
    }
  }

  lemma {:induction false} Published(k: Bell, g: Tally, heads: seq<Act>)
    requires Tuned(k, g) && k.mode.Asleep? && !k.rung && (forall i :: 0 <= i < |heads| ==> heads[i].Publish?)
    requires LegalActs(k, g, heads + [KickNow]) && (heads != [] || g.added > g.taken)
    ensures Acted(k, g, heads + [KickNow]).0.rung
    decreases heads
  {
    if heads == [] {
      AskedKick(k, g);
      assert (heads + [KickNow])[0] == KickNow && (heads + [KickNow])[1..] == [];
    } else {
      ActKeeps(k, g, heads[0]);
      assert (heads + [KickNow])[1..] == heads[1..] + [KickNow];
      Published(After(k, heads[0]), Tallied(g, heads[0]), heads[1..]);
    }
  }

  /** So a device asleep after any run is notified by the first kick after any publication:
      until then it can do nothing and the driver can only publish. */
  lemma FirstKickNotifies(k0: Bell, run: seq<Act>, heads: seq<Act>)
    requires Silent(k0) && LegalActs(k0, Tally(0, 0, 0), run)
    requires var (k, g) := Acted(k0, Tally(0, 0, 0), run);
             && k.mode.Asleep? && !k.rung && LegalActs(k, g, heads + [KickNow])
    requires heads != [] && forall i :: 0 <= i < |heads| ==> heads[i].Publish?
    ensures var (k, g) := Acted(k0, Tally(0, 0, 0), run);
            Acted(k, g, heads + [KickNow]).0.rung
  {
    ActsKeep(k0, Tally(0, 0, 0), run);
    var (k, g) := Acted(k0, Tally(0, 0, 0), run);
    Published(k, g, heads);
  }
}
