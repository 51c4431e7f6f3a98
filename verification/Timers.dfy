/** The timer queue of util/timeout.c as values: every entry stores only its distance from
    the entry before it. */
module Timers {
  import opened Words

  datatype TimeVal = TimeVal(sec: int, usec: int)

  const SECOND: int := 1_000_000
  const ZERO: TimeVal := TimeVal(0, 0)

  predicate Normal(t: TimeVal) { t.sec >= 0 && 0 <= t.usec < SECOND }

  function Usec(t: TimeVal): int { t.sec * SECOND + t.usec }

  /** timercmp with <. */
  predicate Less(a: TimeVal, b: TimeVal) {
    if a.sec == b.sec then a.usec < b.usec else a.sec < b.sec
  }

  /** timersub. */
  function Sub(a: TimeVal, b: TimeVal): TimeVal {
    var sec, usec := a.sec - b.sec, a.usec - b.usec;
    if usec < 0 then TimeVal(sec - 1, usec + SECOND) else TimeVal(sec, usec)
  }

  lemma TimeValArithmetic(a: TimeVal, b: TimeVal)
    requires Normal(a) && Normal(b)
    ensures Less(a, b) <==> Usec(a) < Usec(b)
    ensures !Less(a, b) ==> Normal(Sub(a, b))
    ensures Usec(Sub(a, b)) == Usec(a) - Usec(b)
    ensures a == b <==> Usec(a) == Usec(b)
  {
  }

  // ----- the delay of schedule_timeout

  /** The delay as schedule_timeout computes it, where unsigned long counts modulo w. */
  function FromMs(ms: nat, w: nat): TimeVal
    requires w > 0
  {
    TimeVal(ms / 1000, ((ms * 1000) % w) % SECOND)
  }

  predicate IsULong(w: nat) { w == W32 || w == W64 }

  /** Whatever overflows, the delay is normalised and only a request for 0 gives 0. */
  lemma FromMsNormal(ms: nat, w: nat)
    requires IsULong(w)
    ensures Normal(FromMs(ms, w))
    ensures Usec(FromMs(ms, w)) == 0 <==> ms == 0
  {
    if ms < 1000 {
      DivModUnique(ms * 1000, w, 0, ms * 1000);
      DivModUnique(ms * 1000, SECOND, 0, ms * 1000);
    }
  }

  lemma WholeSeconds(ms: nat)
    ensures ms * 1000 == (ms / 1000) * SECOND + (ms * 1000) % SECOND
  {
    var q, r := ms / 1000, ms % 1000;
    DivModUnique(ms * 1000, SECOND, q, r * 1000);
  }

  lemma NoFactor64(k: int, m: int)
    requires 1 <= k < 1000
    ensures k * W64 != m * SECOND
  {
  }

  /** 2^64 has no factor five, so fewer than 5^6 overflows never cancel out. */
  lemma OffBy64(k: nat, r: nat, x: nat)
    requires x == k * W64 + r && W64 <= x < 1000 * W64 && r < W64
    ensures x % SECOND != r % SECOND
  {
    assert 1 <= k < 1000;
    if x % SECOND == r % SECOND {
      var m := x / SECOND - r / SECOND;
      assert k * W64 == m * SECOND;
      NoFactor64(k, m);
    }
  }

  lemma NoFactor32(k: int, m: int)
    requires 1 <= k < 1000
    ensures k * W32 != m * SECOND
  {
  }

  lemma OffBy32(k: nat, r: nat, x: nat)
    requires x == k * W32 + r && W32 <= x < 1000 * W32 && r < W32
    ensures x % SECOND != r % SECOND
  {
    assert 1 <= k < 1000;
    if x % SECOND == r % SECOND {
      var m := x / SECOND - r / SECOND;
      assert k * W32 == m * SECOND;
      NoFactor32(k, m);
    }
  }

  /** The delay is the one asked for exactly when ms * 1000 does not overflow. */
  lemma DelayExactIff(ms: nat, w: nat)
    requires IsULong(w) && ms < w
    ensures Usec(FromMs(ms, w)) == ms * 1000 <==> ms * 1000 < w
  {
    var x := ms * 1000;
    if x < w {
      DivModUnique(x, w, 0, x);
      WholeSeconds(ms);
    } else {
      var k, r := x / w, x % w;
      assert x == k * w + r;
      WholeSeconds(ms);
      if w == W64 { OffBy64(k, r, x); } else { OffBy32(k, r, x); }
    }
  }

  /** Also when ms * 1000 overflows the delay is less than a second off: only the microseconds
      wrap. */
  lemma DelayWithinSecond(ms: nat, w: nat)
    requires IsULong(w) && ms < w
    ensures -SECOND < Usec(FromMs(ms, w)) - ms * 1000 < SECOND
  {
    WholeSeconds(ms);
  }

  // ----- the queue

  /** A scheduled timeout; id stands for its address. */
  datatype Timer = Timer(id: nat, expires: TimeVal, handler: nat, priv: nat, armed: bool)

  ghost predicate AllNormal(q: seq<Timer>) {
    forall i :: 0 <= i < |q| ==> Normal(q[i].expires)
  }

  /** The insertion loop: walk past the entries that come first, taking their distances off
      the new one, and take the rest off the entry it goes before. */
  function Insert(q: seq<Timer>, t: Timer): seq<Timer> {
    if q == [] then [t]
    else if Less(t.expires, q[0].expires) then
      [t, q[0].(expires := Sub(q[0].expires, t.expires))] + q[1..]
    else [q[0]] + Insert(q[1..], t.(expires := Sub(t.expires, q[0].expires)))
  }

  /** cancel_timeout only disarms; the entry stays until it comes due. */
  function Disarm(q: seq<Timer>, id: nat): seq<Timer> {
    if q == [] then []
    else [if q[0].id == id then q[0].(armed := false) else q[0]] + Disarm(q[1..], id)
  }

  /** What select does to the head while it waits. */
  function Elapse(q: seq<Timer>, t: TimeVal): seq<Timer> {
    if q == [] then [] else [q[0].(expires := Sub(q[0].expires, t))] + q[1..]
  }

  // ----- what it stands for: absolute deadlines

  datatype Deadline = Deadline(id: nat, at: int, handler: nat, priv: nat, armed: bool)

  /** The deadlines of a queue whose first distance counts from now. */
  function Absolute(q: seq<Timer>, now: int): (ds: seq<Deadline>)
    ensures |ds| == |q|
  {
    if q == [] then []
    else
      var at := now + Usec(q[0].expires);
      [Deadline(q[0].id, at, q[0].handler, q[0].priv, q[0].armed)] + Absolute(q[1..], at)
  }

  function InsertSorted(ds: seq<Deadline>, d: Deadline): (r: seq<Deadline>)
    ensures |r| == |ds| + 1
  {
    if ds == [] then [d]
    else if d.at < ds[0].at then [d] + ds
    else [ds[0]] + InsertSorted(ds[1..], d)
  }

  function DisarmIn(ds: seq<Deadline>, id: nat): (r: seq<Deadline>)
    ensures |r| == |ds|
    ensures forall i :: 0 <= i < |ds| ==> r[i] == if ds[i].id == id then ds[i].(armed := false) else ds[i]
  {
    if ds == [] then []
    else [if ds[0].id == id then ds[0].(armed := false) else ds[0]] + DisarmIn(ds[1..], id)
  }

  lemma {:induction false} InsertFront(q: seq<Timer>, t: Timer, now: int)
    requires q != [] && AllNormal(q) && Normal(t.expires) && Less(t.expires, q[0].expires)
    ensures AllNormal(Insert(q, t))
    ensures Absolute(Insert(q, t), now)
         == [Deadline(t.id, now + Usec(t.expires), t.handler, t.priv, t.armed)] + Absolute(q, now)
  {
    TimeValArithmetic(t.expires, q[0].expires);
    TimeValArithmetic(q[0].expires, t.expires);
    var r := Insert(q, t);
    assert r[1..] == [q[0].(expires := Sub(q[0].expires, t.expires))] + q[1..];
    assert r[1..][1..] == q[1..];
  }

  lemma InsertBehind(q: seq<Timer>, t: Timer)
    requires q != [] && AllNormal(q) && Normal(t.expires) && !Less(t.expires, q[0].expires)
    ensures Normal(Sub(t.expires, q[0].expires)) && AllNormal(q[1..])
    ensures Usec(q[0].expires) <= Usec(t.expires)
    ensures Usec(Sub(t.expires, q[0].expires)) == Usec(t.expires) - Usec(q[0].expires)
  {
    TimeValArithmetic(t.expires, q[0].expires);
  }

  lemma {:induction false} InsertNormal(q: seq<Timer>, t: Timer)
    requires AllNormal(q) && Normal(t.expires)
    ensures AllNormal(Insert(q, t))
  {
    if q != [] {
      if Less(t.expires, q[0].expires) {
        InsertFront(q, t, 0);
      } else {
        InsertBehind(q, t);
        InsertNormal(q[1..], t.(expires := Sub(t.expires, q[0].expires)));
      }
    }
  }

  function DeadlineOf(t: Timer, now: int): Deadline {
    Deadline(t.id, now + Usec(t.expires), t.handler, t.priv, t.armed)
  }

  lemma AbsoluteCons(t: Timer, q: seq<Timer>, now: int)
    ensures Absolute([t] + q, now) == [DeadlineOf(t, now)] + Absolute(q, now + Usec(t.expires))
  {
    assert ([t] + q)[1..] == q;
  }

  lemma InsertSortedCons(d0: Deadline, ds: seq<Deadline>, d: Deadline)
    ensures InsertSorted([d0] + ds, d) == if d.at < d0.at then [d] + ([d0] + ds) else [d0] + InsertSorted(ds, d)
  {
    assert ([d0] + ds)[1..] == ds;
  }

  lemma InsertBefore(q: seq<Timer>, t: Timer, now: int)
    requires q != [] && AllNormal(q) && Normal(t.expires) && Less(t.expires, q[0].expires)
    ensures Absolute(Insert(q, t), now) == InsertSorted(Absolute(q, now), DeadlineOf(t, now))
  {
    TimeValArithmetic(t.expires, q[0].expires);
    InsertFront(q, t, now);
    InsertSortedCons(DeadlineOf(q[0], now), Absolute(q[1..], now + Usec(q[0].expires)), DeadlineOf(t, now));
  }

  /** schedule_timeout adds exactly one deadline and changes no other, although it rewrites
      the distance of the entry behind. */
  lemma {:induction false} InsertRefines(q: seq<Timer>, t: Timer, now: int)
    requires AllNormal(q) && Normal(t.expires)
    ensures Absolute(Insert(q, t), now) == InsertSorted(Absolute(q, now), DeadlineOf(t, now))
  {
    if q == [] {
      AbsoluteCons(t, [], now);
    } else if Less(t.expires, q[0].expires) {
      InsertBefore(q, t, now);
    } else {
      var t', now' := t.(expires := Sub(t.expires, q[0].expires)), now + Usec(q[0].expires);
      InsertBehind(q, t);
      InsertRefines(q[1..], t', now');
      AbsoluteCons(q[0], Insert(q[1..], t'), now);
      InsertSortedCons(DeadlineOf(q[0], now), Absolute(q[1..], now'), DeadlineOf(t, now));
      assert DeadlineOf(t', now') == DeadlineOf(t, now);
    }
  }

  lemma {:induction false} DisarmRefines(q: seq<Timer>, id: nat, now: int)
    requires AllNormal(q)
    ensures AllNormal(Disarm(q, id)) && Absolute(Disarm(q, id), now) == DisarmIn(Absolute(q, now), id)
  {
    if q != [] {
      DisarmRefines(q[1..], id, now + Usec(q[0].expires));
      assert Disarm(q, id)[1..] == Disarm(q[1..], id);
    }
  }

  /** Waiting moves the clock and no deadline. */
  lemma ElapseRefines(q: seq<Timer>, t: TimeVal, now: int)
    requires AllNormal(q) && Normal(t) && (q != [] ==> !Less(q[0].expires, t))
    ensures AllNormal(Elapse(q, t)) && Absolute(Elapse(q, t), now + Usec(t)) == Absolute(q, now)
  {
    if q != [] {
      TimeValArithmetic(q[0].expires, t);
      assert Elapse(q, t)[1..] == q[1..];
    }
  }

  /** Deadlines in order; among equal ones the order is that of their scheduling. */
  ghost predicate Sorted(ds: seq<Deadline>) {
    forall i, j :: 0 <= i < j < |ds| ==> ds[i].at < ds[j].at || (ds[i].at == ds[j].at && ds[i].id < ds[j].id)
  }

  /** Where a new deadline goes: behind everything due no later, before everything due later. */
  lemma {:induction false} InsertSortedAt(ds: seq<Deadline>, d: Deadline) returns (k: nat)
    requires forall i, j :: 0 <= i < j < |ds| ==> ds[i].at <= ds[j].at
    ensures k <= |ds| && InsertSorted(ds, d) == ds[..k] + [d] + ds[k..]
    ensures forall i :: 0 <= i < k ==> ds[i].at <= d.at
    ensures forall i :: k <= i < |ds| ==> d.at < ds[i].at
  {
    if ds == [] || d.at < ds[0].at {
      k := 0;
    } else {
      var j := InsertSortedAt(ds[1..], d);
      k := j + 1;
      assert ds == [ds[0]] + ds[1..];
      assert [ds[0]] + ds[1..][..j] == ds[..k] && ds[1..][j..] == ds[k..];
    }
  }

  lemma SortedWith(ds: seq<Deadline>, d: Deadline, k: nat)
    requires Sorted(ds) && k <= |ds| && forall i :: 0 <= i < |ds| ==> ds[i].id < d.id
    requires forall i :: 0 <= i < k ==> ds[i].at <= d.at
    requires forall i :: k <= i < |ds| ==> d.at < ds[i].at
    ensures Sorted(ds[..k] + [d] + ds[k..])
  {
    var r := ds[..k] + [d] + ds[k..];
    forall i, j | 0 <= i < j < |r|
      ensures r[i].at < r[j].at || (r[i].at == r[j].at && r[i].id < r[j].id)
    {
      assert i < k ==> r[i] == ds[i];
      assert j > k ==> r[j] == ds[j - 1];
      assert i > k ==> r[i] == ds[i - 1];
      assert j < k ==> r[j] == ds[j];
    }
  }

  /** The newest of the ids keeps the queue sorted and stable. */
  lemma InsertKeepsSorted(ds: seq<Deadline>, d: Deadline)
    requires Sorted(ds) && forall i :: 0 <= i < |ds| ==> ds[i].id < d.id
    ensures Sorted(InsertSorted(ds, d))
  {
    var k := InsertSortedAt(ds, d);
    SortedWith(ds, d, k);
  }

  /** Scheduling adds one deadline and loses none. */
  lemma {:induction false} InsertAddsOne(ds: seq<Deadline>, d: Deadline)
    ensures multiset(InsertSorted(ds, d)) == multiset(ds) + multiset{d}
  {
    if ds != [] {
      InsertAddsOne(ds[1..], d);
      assert ds == [ds[0]] + ds[1..];
    }
  }

  lemma {:induction false} AbsoluteSorted(q: seq<Timer>, now: int)
    requires AllNormal(q)
    ensures forall i :: 0 <= i < |q| ==> now <= Absolute(q, now)[i].at
    ensures forall i, j :: 0 <= i < j < |q| ==> Absolute(q, now)[i].at <= Absolute(q, now)[j].at
  {
    if q != [] {
      assert Normal(q[0].expires);
      AbsoluteSorted(q[1..], now + Usec(q[0].expires));
    }
  }
}
