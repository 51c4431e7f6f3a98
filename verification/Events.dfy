/** Notification suppression: the event index test of include/virtio_ring.h, kicks and the
    enabling and disabling of callbacks in util/virtqueue.c. */
module Events {
  import opened Words
  import opened Vring

  const NO_NOTIFY: u16 := 1

  /** vring_need_event. */
  predicate NeedEvent(event: u16, newIdx: u16, oldIdx: u16) {
    Minus(newIdx, event + 1) < Minus(newIdx, oldIdx)
  }

  /** Position p of an unbounded counter is in [lo, hi) and shows as the 16-bit index e. */
  ghost predicate Passes(lo: nat, hi: nat, e: u16, p: nat) { lo <= p < hi && p % W16 == e }

  lemma EventPosition(hi: nat, e: u16)
    requires Minus(hi % W16, e + 1) < hi
    ensures (hi - 1 - Minus(hi % W16, e + 1)) % W16 == e
  {
  }

  lemma BackDistance(hi: nat, p: nat)
    requires p < hi <= p + W16
    ensures Minus(hi % W16, p % W16 + 1) == hi - 1 - p
  {
  }

  /** The test is true exactly when the event index lies in the circular interval from old
      to new: for a counter that went from lo to hi, exactly when it passed the event. */
  lemma NeedEventIff(lo: nat, hi: nat, e: u16)
    requires lo <= hi < lo + W16
    ensures NeedEvent(e, hi % W16, lo % W16) <==> exists p: nat :: Passes(lo, hi, e, p)
  {
    CounterDistance(lo, hi);
    var back := Minus(hi % W16, e + 1);
    if back < hi - lo {
      EventPosition(hi, e);
      assert Passes(lo, hi, e, hi - 1 - back);
    }
    if exists p: nat :: Passes(lo, hi, e, p) {
      var p: nat :| Passes(lo, hi, e, p);
      BackDistance(hi, p);
    }
  }

  // ----- kicks

  /** vq_ring_must_notify_host, then the pending count starts again at zero. */
  function Kick(r: Ring, d: Driver, eventIdx: bool): (Driver, bool) {
    (d.(queued := 0),
     if eventIdx then NeedEvent(r.availEvent, r.availIdx, Minus(r.availIdx, d.queued))
     else And(r.usedFlags, NO_NOTIFY) == 0)
  }

  /** Without the event index a kick notifies exactly when the device has left the lowest bit
      of its flags clear (VIRTIO 1.1, section 2.6.10), however many chains are pending. */
  lemma FlagKickIff(r: Ring, d: Driver)
    ensures Kick(r, d, false).1 <==> r.usedFlags % 2 == 0
  {
    LowBits(r.usedFlags);
  }

  /** The driver has published hi chains, lo of them before the last kick. */
  ghost predicate Pending(r: Ring, d: Driver, lo: nat, hi: nat) {
    lo <= hi && r.availIdx == hi % W16 && d.queued == (hi - lo) % W16
  }

  lemma PreviousIndex(lo: nat, hi: nat)
    requires lo <= hi
    ensures hi < lo + W16 ==> Minus(hi % W16, (hi - lo) % W16) == lo % W16
    ensures Minus(hi % W16, (hi - lo) % W16) == (hi - (hi - lo) % W16) % W16
  {
  }

  lemma PendingStart(r: Ring, d: Driver, lo: nat, hi: nat)
    requires Pending(r, d, lo, hi)
    ensures hi < lo + W16 ==> Minus(r.availIdx, d.queued) == lo % W16
    ensures Minus(r.availIdx, d.queued) == (hi - (hi - lo) % W16) % W16
  {
    PreviousIndex(lo, hi);
  }

  /** A kick asks for a notification exactly when a position published since the last kick is
      the one the device waits for. */
  lemma KickIff(r: Ring, d: Driver, lo: nat, hi: nat)
    requires Pending(r, d, lo, hi) && hi < lo + W16
    ensures Kick(r, d, true).1 <==> exists p: nat :: Passes(lo, hi, r.availEvent, p)
  {
    PendingStart(r, d, lo, hi);
    NeedEventIff(lo, hi, r.availEvent);
  }

  /** With 2^16 or more pending, the position just before the shortened window is missed. */
  lemma KickMisses(r: Ring, d: Driver, lo: nat, hi: nat) returns (e: u16)
    requires Pending(r, d, lo, hi) && hi >= lo + W16
    ensures !Kick(r.(availEvent := e), d, true).1 && exists p: nat :: Passes(lo, hi, e, p)
  {
    var start := hi - (hi - lo) % W16;
    PendingStart(r, d, lo, hi);
    e := (start - 1) % W16;
    NeedEventIff(start, hi, e);
    assert Passes(lo, hi, e, start - 1);
    forall p: nat | start <= p < hi ensures p % W16 != e { ModDistinct(start - 1, p, W16); }
  }

  /** The pending count has 16 bits, so the kick is right for every event index exactly when
      fewer than 2^16 chains were published since the last one. */
  lemma KickExactIff(r: Ring, d: Driver, lo: nat, hi: nat)
    requires Pending(r, d, lo, hi)
    ensures hi < lo + W16 <==>
            forall e: u16 :: Kick(r.(availEvent := e), d, true).1 <==> exists p: nat :: Passes(lo, hi, e, p)
  {
    if hi < lo + W16 {
      forall e: u16 ensures Kick(r.(availEvent := e), d, true).1 <==> exists p: nat :: Passes(lo, hi, e, p) {
        KickIff(r.(availEvent := e), d, lo, hi);
      }
    } else {
      var e := KickMisses(r, d, lo, hi);
    }
  }

  // ----- runs of publishing and kicking

  datatype Op = Publish | KickAt(event: u16)

  /** One kick of a run: the positions published since the one before, the device's event
      index when it was made, and whether it asked for a notification. */
  datatype Window = Window(lo: nat, hi: nat, event: u16, fired: bool)

  /** The kicks of a run that starts with hi chains published, lo of them before the last
      kick; idx and queued are the driver's own fields. */
  function Windows(idx: u16, queued: u16, lo: nat, hi: nat, run: seq<Op>): seq<Window>
    decreases run
  {
    if run == [] then []
    else
      match run[0]
      case Publish => Windows(Inc(idx), Inc(queued), lo, hi + 1, run[1..])
      case KickAt(e) =>
        [Window(lo, hi, e, NeedEvent(e, idx, Minus(idx, queued)))] + Windows(idx, 0, hi, hi, run[1..])
  }

  /** Publishing and kicking move idx and queued as vq_ring_update_avail and virtqueue_kick do. */
  lemma PendingSteps(r: Ring, d: Driver, lo: nat, hi: nat)
    requires Pending(r, d, lo, hi)
    ensures Pending(r.(availIdx := Inc(r.availIdx)), d.(queued := Inc(d.queued)), lo, hi + 1)
    ensures Pending(r, Kick(r, d, true).0, hi, hi)
  {
    IncWraps(hi);
    IncWraps(hi - lo);
  }

  ghost predicate Tiled(ws: seq<Window>, lo: nat) {
    && (ws != [] ==> ws[0].lo == lo)
    && (forall i :: 0 <= i < |ws| ==> lo <= ws[i].lo <= ws[i].hi)
    && (forall i :: 0 <= i < |ws| - 1 ==> ws[i].hi == ws[i + 1].lo)
  }

  /** The windows of the kicks follow each other without gap or overlap, and each kick that
      comes in time fires exactly when its window passes the event index. */
  lemma {:induction false} WindowsTile(r: Ring, d: Driver, lo: nat, hi: nat, run: seq<Op>)
    requires Pending(r, d, lo, hi)
    ensures Tiled(Windows(r.availIdx, d.queued, lo, hi, run), lo)
    ensures forall w :: w in Windows(r.availIdx, d.queued, lo, hi, run) && w.hi < w.lo + W16 ==>
              (w.fired <==> exists p: nat :: Passes(w.lo, w.hi, w.event, p))
    decreases run
  {
    if run != [] {
      PendingSteps(r, d, lo, hi);
      match run[0]
      case Publish =>
        WindowsTile(r.(availIdx := Inc(r.availIdx)), d.(queued := Inc(d.queued)), lo, hi + 1, run[1..]);
      case KickAt(e) =>
        WindowsTile(r, Kick(r, d, true).0, hi, hi, run[1..]);
        if hi < lo + W16 {
          KickIff(r.(availEvent := e), d, lo, hi);
        }
    }
  }

  lemma {:induction false} WindowsOrdered(ws: seq<Window>, lo: nat, i: nat, j: nat)
    requires Tiled(ws, lo) && i < j < |ws|
    ensures ws[i].hi <= ws[j].lo
    decreases j
  {
    if i + 1 < j {
      WindowsOrdered(ws, lo, i, j - 1);
    }
  }

  lemma {:induction false} FindWindow(ws: seq<Window>, lo: nat, p: nat, k: nat) returns (j: nat)
    requires Tiled(ws, lo) && k < |ws| && lo <= p < ws[k].hi
    ensures j <= k && ws[j].lo <= p < ws[j].hi
  {
    if ws[k].lo <= p {
      j := k;
    } else {
      j := FindWindow(ws, lo, p, k - 1);
    }
  }

  /** Every position published before the last kick is in the window of exactly one kick. */
  lemma {:induction false} CoveredOnce(ws: seq<Window>, lo: nat, p: nat) returns (j: nat)
    requires Tiled(ws, lo) && ws != [] && lo <= p < ws[|ws| - 1].hi
    ensures j < |ws| && ws[j].lo <= p < ws[j].hi
    ensures forall i :: 0 <= i < |ws| && i != j ==> !(ws[i].lo <= p < ws[i].hi)
  {
    j := FindWindow(ws, lo, p, |ws| - 1);
    forall i | 0 <= i < |ws| && i != j ensures !(ws[i].lo <= p < ws[i].hi) {
      if i < j { WindowsOrdered(ws, lo, i, j); } else { WindowsOrdered(ws, lo, j, i); }
    }
  }

  // ----- callbacks

  /** Setting and clearing the lowest bit. */
  function SetLow(x: u16): (r: u16)
    ensures r == Or(x, 1) && And(r, 1) == 1 && r % 2 == 1 && r / 2 == x / 2
  {
    assert And(x, 1) == x % 2;
    assert x / 2 > 0 ==> Or(x / 2, 0) == x / 2;
    if And(x, 1) == 0 then x + 1 else x
  }

  function ClearLow(x: u16): (r: u16)
    ensures And(r, 1) == 0 && SetLow(r) == SetLow(x) && r % 2 == 0 && r / 2 == x / 2
  {
    assert And(x, 1) == x % 2;
    x - And(x, 1)
  }

  /** virtqueue_disable_cb. */
  function DisableCb(r: Ring, d: Driver, eventIdx: bool): Ring {
    if eventIdx then r.(usedEvent := Minus(d.usedCons, |r.desc| + 1))
    else r.(availFlags := SetLow(r.availFlags))
  }

  /** The first half of virtqueue_enable_cb: ask for the next used entry. */
  function Arm(r: Ring, d: Driver, eventIdx: bool): Ring {
    if eventIdx then r.(usedEvent := d.usedCons)
    else r.(availFlags := ClearLow(r.availFlags))
  }

  /** The second half: 1 when there are entries to process already. */
  function Pended(r: Ring, d: Driver): int {
    if Minus(r.usedIdx, d.usedCons) > 0 then 1 else 0
  }

  function EnableCb(r: Ring, d: Driver, eventIdx: bool): (Ring, int) {
    (Arm(r, d, eventIdx), Pended(Arm(r, d, eventIdx), d))
  }

  lemma SilentDistance(cons: nat, used: nat, n: nat)
    requires cons <= used
    ensures Minus(used % W16, Minus(cons % W16, n + 1) + 1) == (used - cons + n) % W16
  {
    var e: int, u, c := Minus(cons % W16, n + 1), used / W16, cons / W16;
    var q := (cons % W16 - (n + 1)) / W16;
    assert used == u * W16 + used % W16 && cons == c * W16 + cons % W16;
    assert cons % W16 - (n + 1) == q * W16 + e;
    assert used % W16 - (e + 1) == (used - cons + n) + (c - u + q) * W16;
    ModShift(used - cons + n, W16, c - u + q);
  }

  /** When a disabled callback fires: with `cons` entries consumed when it was disabled,
      however many since, and `used` published, a test after moving the used index by `moved`
      is true exactly when the move reaches back past the event position. */
  lemma DisabledFires(r: Ring, d: Driver, cons: nat, used: nat, moved: nat)
    requires d.usedCons == cons % W16 && cons <= used && moved <= used && moved < W16
    ensures NeedEvent(DisableCb(r, d, true).usedEvent, used % W16, (used - moved) % W16)
            <==> moved > (used - cons + |r.desc|) % W16
  {
    CounterDistance(used - moved, used);
    SilentDistance(cons, used, |r.desc|);
  }

  /** So as long as fewer than 2^16 - n entries were published since, a move of at most those
      and the size n of the table asks for nothing; one later every move asks. */
  lemma DisabledIsSilent(r: Ring, d: Driver, cons: nat, used: nat, moved: nat)
    requires d.usedCons == cons % W16 && cons <= used && 0 < moved <= used && moved < W16
    ensures var fires := NeedEvent(DisableCb(r, d, true).usedEvent, used % W16, (used - moved) % W16);
            && (used - cons + |r.desc| < W16 && moved <= used - cons + |r.desc| ==> !fires)
            && (used - cons + |r.desc| == W16 ==> fires)
  {
    DisabledFires(r, d, cons, used, moved);
  }
}
