/** What every run of the timer queue guarantees to those who schedule. */
module Timeliness {
  import opened Words
  import opened Timers
  import opened TimerRuns
  import opened Agenda

  // ----- the invariant of the agenda

  /** Earlier, or at the same time and scheduled earlier. */
  predicate Precedes(t1: int, id1: nat, t2: int, id2: nat) { t1 < t2 || (t1 == t2 && id1 < id2) }

  /** Every pending deadline is the one that was scheduled, is not past, and is armed unless
      it was cancelled. */
  ghost predicate PendingOk(a: Agenda) {
    forall i :: 0 <= i < |a.ds| ==>
      && a.ds[i].id < |a.born| && a.now <= a.ds[i].at
      && Born(a.ds[i].at, a.ds[i].handler, a.ds[i].priv) == a.born[a.ds[i].id]
      && (a.ds[i].armed <==> a.ds[i].id !in a.cancelled)
  }

  /** Every handler call was made at its deadline, with what was scheduled, and not for a
      cancelled timeout. */
  ghost predicate FiredOk(a: Agenda) {
    forall i :: 0 <= i < |a.fired| ==>
      && a.fired[i].id < |a.born| && a.fired[i].time <= a.now
      && Born(a.fired[i].time, a.fired[i].handler, a.fired[i].priv) == a.born[a.fired[i].id]
      && a.fired[i].id !in a.cancelled
  }

  /** Handlers were called in the order of their deadlines, and whatever is pending comes
      after them. */
  ghost predicate Ordered(a: Agenda) {
    && Sorted(a.ds)
    && (forall i, j :: 0 <= i < j < |a.fired| ==>
          Precedes(a.fired[i].time, a.fired[i].id, a.fired[j].time, a.fired[j].id))
    && (forall i, j :: 0 <= i < |a.fired| && 0 <= j < |a.ds| ==>
          Precedes(a.fired[i].time, a.fired[i].id, a.ds[j].at, a.ds[j].id))
  }

  /** Nothing that was scheduled is forgotten. */
  ghost predicate Known(a: Agenda) {
    && (forall id :: 0 <= id < |a.born| ==> id in PendingIds(a.ds) || id in FiredIds(a.fired) || id in a.cancelled)
    && (forall id :: id in a.cancelled ==> id < |a.born|)
  }

  ghost predicate Good(a: Agenda) { PendingOk(a) && FiredOk(a) && Ordered(a) && Known(a) }

  // ----- scheduling

  lemma InsertedIds(ds: seq<Deadline>, d: Deadline) returns (k: nat)
    requires forall i, j :: 0 <= i < j < |ds| ==> ds[i].at <= ds[j].at
    ensures k <= |ds| && InsertSorted(ds, d) == ds[..k] + [d] + ds[k..]
    ensures PendingIds(InsertSorted(ds, d)) == PendingIds(ds) + {d.id}
  {
    k := InsertSortedAt(ds, d);
    var r := InsertSorted(ds, d);
    forall x | x in PendingIds(ds) + {d.id} ensures x in PendingIds(r) {
      if x == d.id {
        assert r[k].id == x;
      } else {
        var i :| 0 <= i < |ds| && ds[i].id == x;
        assert r[if i < k then i else i + 1].id == x;
      }
    }
  }

  ghost function Scheduled(a: Agenda, at: int, handler: nat, priv: nat): Agenda {
    a.(ds := InsertSorted(a.ds, Deadline(|a.born|, at, handler, priv, true)),
       born := a.born + [Born(at, handler, priv)])
  }

  lemma InsertedAt(ds: seq<Deadline>, d: Deadline, k: nat, i: nat)
    requires k <= |ds| && InsertSorted(ds, d) == ds[..k] + [d] + ds[k..] && i <= |ds|
    ensures InsertSorted(ds, d)[i] == if i < k then ds[i] else if i == k then d else ds[i - 1]
  {
  }

  lemma ScheduledPending(a: Agenda, at: int, handler: nat, priv: nat)
    requires PendingOk(a) && Known(a) && Sorted(a.ds) && a.now <= at
    ensures PendingOk(Scheduled(a, at, handler, priv))
  {
    var d := Deadline(|a.born|, at, handler, priv, true);
    var k := InsertSortedAt(a.ds, d);
    var a' := Scheduled(a, at, handler, priv);
    forall i | 0 <= i < |a'.ds|
      ensures a'.ds[i] == if i < k then a.ds[i] else if i == k then d else a.ds[i - 1]
    {
      InsertedAt(a.ds, d, k, i);
    }
    assert a'.born[|a.born|] == Born(at, handler, priv);
    assert |a.born| !in a.cancelled;
  }

  lemma ScheduledKnown(a: Agenda, at: int, handler: nat, priv: nat)
    requires Known(a) && Sorted(a.ds)
    ensures Known(Scheduled(a, at, handler, priv))
  {
    var k := InsertedIds(a.ds, Deadline(|a.born|, at, handler, priv, true));
  }

  lemma AfterFired(a: Agenda, d: Deadline, k: nat, i: nat, j: nat)
    requires FiredOk(a) && Ordered(a) && a.now <= d.at && d.id == |a.born|
    requires k <= |a.ds| && InsertSorted(a.ds, d) == a.ds[..k] + [d] + a.ds[k..]
    requires i < |a.fired| && j <= |a.ds|
    ensures var x := InsertSorted(a.ds, d)[j];
            Precedes(a.fired[i].time, a.fired[i].id, x.at, x.id)
  {
    InsertedAt(a.ds, d, k, j);
    if j != k {
      var y := if j < k then a.ds[j] else a.ds[j - 1];
      assert Precedes(a.fired[i].time, a.fired[i].id, y.at, y.id);
    }
  }

  lemma ScheduledOrder(a: Agenda, at: int, handler: nat, priv: nat)
    requires PendingOk(a) && FiredOk(a) && Ordered(a) && a.now <= at
    ensures FiredOk(Scheduled(a, at, handler, priv)) && Ordered(Scheduled(a, at, handler, priv))
  {
    var d := Deadline(|a.born|, at, handler, priv, true);
    var a' := Scheduled(a, at, handler, priv);
    InsertKeepsSorted(a.ds, d);
    var k := InsertSortedAt(a.ds, d);
    forall i, j | 0 <= i < |a'.fired| && 0 <= j < |a'.ds|
      ensures Precedes(a'.fired[i].time, a'.fired[i].id, a'.ds[j].at, a'.ds[j].id)
    {
      AfterFired(a, d, k, i, j);
    }
    forall i | 0 <= i < |a'.fired| ensures a'.born[a'.fired[i].id] == a.born[a.fired[i].id] {}
  }

  // ----- cancelling

  lemma DisarmedIds(ds: seq<Deadline>, id: nat)
    ensures PendingIds(DisarmIn(ds, id)) == PendingIds(ds)
  {
    var r := DisarmIn(ds, id);
    forall x | x in PendingIds(ds) ensures x in PendingIds(r) {
      var i :| 0 <= i < |ds| && ds[i].id == x;
      assert r[i].id == x;
    }
    forall x | x in PendingIds(r) ensures x in PendingIds(ds) {
      var i :| 0 <= i < |r| && r[i].id == x;
      assert ds[i].id == x;
    }
  }

  /** What fired is not pending. */
  lemma FiredNotPending(a: Agenda, j: nat)
    requires PendingOk(a) && FiredOk(a) && Ordered(a) && j < |a.ds|
    ensures a.ds[j].id !in FiredIds(a.fired)
  {
    forall i | 0 <= i < |a.fired| ensures a.fired[i].id != a.ds[j].id {
      assert Precedes(a.fired[i].time, a.fired[i].id, a.ds[j].at, a.ds[j].id);
    }
  }

  lemma CancelPending(a: Agenda, id: nat, w: nat)
    requires Good(a) && w > 0
    ensures PendingOk(Do(a, Cancel(id), w)) && FiredOk(Do(a, Cancel(id), w))
  {
    forall i | 0 <= i < |a.ds| ensures a.ds[i].id !in FiredIds(a.fired) { FiredNotPending(a, i); }
    forall i | 0 <= i < |a.fired| ensures a.fired[i].id in FiredIds(a.fired) {}
  }

  lemma CancelGood(a: Agenda, id: nat, w: nat)
    requires Good(a) && w > 0
    ensures Good(Do(a, Cancel(id), w))
  {
    CancelPending(a, id, w);
    DisarmedIds(a.ds, id);
  }

  lemma DoGood(a: Agenda, c: Cmd, w: nat)
    requires Good(a) && IsULong(w)
    ensures Good(Do(a, c, w))
  {
    match c
    case Schedule(ms, handler, priv) =>
      FromMsNormal(ms, w);
      if handler != 0 {
        var at := a.now + Usec(FromMs(ms, w));
        ScheduledPending(a, at, handler, priv);
        ScheduledKnown(a, at, handler, priv);
        ScheduledOrder(a, at, handler, priv);
      }
    case Cancel(id) => CancelGood(a, id, w);
  }

  lemma {:induction false} DoAllGood(a: Agenda, cs: seq<Cmd>, w: nat)
    requires Good(a) && IsULong(w)
    ensures Good(DoAll(a, cs, w)) && DoAll(a, cs, w).now == a.now
    decreases cs
  {
    if cs != [] {
      DoGood(a, cs[0], w);
      DoAllGood(Do(a, cs[0], w), cs[1..], w);
    }
  }

  // ----- draining

  ghost function Unlinked(a: Agenda): Agenda
    requires a.ds != []
  {
    var d := a.ds[0];
    if d.armed then a.(ds := a.ds[1..], fired := a.fired + [Fired(d.id, a.now, d.handler, d.priv)])
    else a.(ds := a.ds[1..])
  }

  lemma UnlinkedKnown(a: Agenda)
    requires PendingOk(a) && Known(a) && a.ds != []
    ensures Known(Unlinked(a))
  {
    var a', d := Unlinked(a), a.ds[0];
    forall id | 0 <= id < |a.born| ensures id in PendingIds(a'.ds) || id in FiredIds(a'.fired) || id in a'.cancelled {
      if id in PendingIds(a.ds) && id != d.id {
        var i :| 0 <= i < |a.ds| && a.ds[i].id == id;
        assert a'.ds[i - 1].id == id;
      } else if id in FiredIds(a.fired) {
        var i :| 0 <= i < |a.fired| && a.fired[i].id == id;
        assert a'.fired[i].id == id;
      } else if id == d.id && d.armed {
        assert a'.fired[|a.fired|].id == id;
      }
    }
  }

  lemma UnlinkedGood(a: Agenda)
    requires Good(a) && a.ds != [] && a.ds[0].at == a.now
    ensures Good(Unlinked(a))
  {
    UnlinkedKnown(a);
  }

  lemma PopGood(a: Agenda, scripts: seq<seq<Cmd>>, w: nat)
    requires Good(a) && IsULong(w) && a.ds != [] && a.ds[0].at == a.now
    ensures Good(Pop(a, scripts, w)) && Pop(a, scripts, w).now == a.now
  {
    UnlinkedGood(a);
    DoAllGood(Unlinked(a), Script(scripts), w);
  }

  lemma {:induction false} DrainGood(a: Agenda, scripts: seq<seq<Cmd>>, w: nat)
    requires Good(a) && IsULong(w)
    ensures Good(Drain(a, scripts, w)) && Drain(a, scripts, w).now == a.now
    decreases |a.ds| + CmdCount(scripts)
  {
    if a.ds != [] && a.ds[0].at == a.now {
      PopSize(a, scripts, w);
      PopGood(a, scripts, w);
      if |a.ds| > 1 && a.ds[1].at == a.now {
        DrainGood(Pop(a, scripts, w), if a.ds[0].armed then Rest(scripts) else scripts, w);
      }
    }
  }

  // ----- a drain call clears what is due

  ghost predicate Has(ds: seq<Deadline>, id: nat, at: int) {
    exists i :: 0 <= i < |ds| && ds[i].id == id && ds[i].at == at
  }

  ghost predicate Ascending(ds: seq<Deadline>) {
    forall i, j :: 0 <= i < j < |ds| ==> ds[i].at <= ds[j].at
  }

  lemma InsertAscending(ds: seq<Deadline>, d: Deadline)
    requires Ascending(ds)
    ensures Ascending(InsertSorted(ds, d))
  {
    var k := InsertSortedAt(ds, d);
    var r := InsertSorted(ds, d);
    forall i, j | 0 <= i < j < |r| ensures r[i].at <= r[j].at {
      assert r[i] == if i < k then ds[i] else if i == k then d else ds[i - 1];
      assert r[j] == if j < k then ds[j] else if j == k then d else ds[j - 1];
    }
  }

  lemma InsertHas(ds: seq<Deadline>, d: Deadline, id: nat, at: int)
    requires Ascending(ds) && d.id != id
    ensures Has(ds, id, at) ==> Has(InsertSorted(ds, d), id, at)
    ensures id !in PendingIds(ds) ==> id !in PendingIds(InsertSorted(ds, d))
  {
    var k := InsertedIds(ds, d);
    if Has(ds, id, at) {
      var i :| 0 <= i < |ds| && ds[i].id == id && ds[i].at == at;
      assert InsertSorted(ds, d)[if i < k then i else i + 1] == ds[i];
    }
  }

  lemma DisarmHas(ds: seq<Deadline>, x: nat, id: nat, at: int)
    requires Ascending(ds)
    ensures Has(ds, id, at) ==> Has(DisarmIn(ds, x), id, at)
    ensures id !in PendingIds(ds) ==> id !in PendingIds(DisarmIn(ds, x))
    ensures Ascending(DisarmIn(ds, x))
  {
    DisarmedIds(ds, x);
    if Has(ds, id, at) {
      var i :| 0 <= i < |ds| && ds[i].id == id && ds[i].at == at;
      assert DisarmIn(ds, x)[i].id == id && DisarmIn(ds, x)[i].at == at;
    }
  }

  lemma DoPending(a: Agenda, c: Cmd, w: nat, id: nat, at: int)
    requires Ascending(a.ds) && IsULong(w) && id < |a.born|
    ensures Has(a.ds, id, at) ==> Has(Do(a, c, w).ds, id, at)
    ensures id !in PendingIds(a.ds) ==> id !in PendingIds(Do(a, c, w).ds)
    ensures Ascending(Do(a, c, w).ds) && |a.born| <= |Do(a, c, w).born| && Do(a, c, w).now == a.now
  {
    match c
    case Schedule(ms, handler, priv) =>
      var d := Deadline(|a.born|, a.now + Usec(FromMs(ms, w)), handler, priv, true);
      InsertHas(a.ds, d, id, at);
      InsertAscending(a.ds, d);
    case Cancel(x) => DisarmHas(a.ds, x, id, at);
  }

  lemma {:induction false} DoAllPending(a: Agenda, cs: seq<Cmd>, w: nat, id: nat, at: int)
    requires Ascending(a.ds) && IsULong(w) && id < |a.born|
    ensures Has(a.ds, id, at) ==> Has(DoAll(a, cs, w).ds, id, at)
    ensures id !in PendingIds(a.ds) ==> id !in PendingIds(DoAll(a, cs, w).ds)
    ensures Ascending(DoAll(a, cs, w).ds) && |a.born| <= |DoAll(a, cs, w).born| && DoAll(a, cs, w).now == a.now
    decreases cs
  {
    if cs != [] {
      DoPending(a, cs[0], w, id, at);
      DoAllPending(Do(a, cs[0], w), cs[1..], w, id, at);
    }
  }

  lemma DistinctIds(a: Agenda, i: nat, j: nat)
    requires Good(a) && i < j < |a.ds|
    ensures a.ds[i].id != a.ds[j].id
  {
  }

  lemma PopPending(a: Agenda, scripts: seq<seq<Cmd>>, w: nat, id: nat, at: int)
    requires Good(a) && IsULong(w) && a.ds != [] && id < |a.born|
    ensures Has(a.ds, id, at) && id != a.ds[0].id ==> Has(Pop(a, scripts, w).ds, id, at)
    ensures id == a.ds[0].id || id !in PendingIds(a.ds) ==> id !in PendingIds(Pop(a, scripts, w).ds)
    ensures |a.born| <= |Pop(a, scripts, w).born|
  {
    var u := Unlinked(a);
    DoAllPending(u, Script(scripts), w, id, at);
    if Has(a.ds, id, at) && id != a.ds[0].id {
      var i :| 0 <= i < |a.ds| && a.ds[i].id == id && a.ds[i].at == at;
      assert u.ds[i - 1] == a.ds[i];
    }
    if id == a.ds[0].id || id !in PendingIds(a.ds) {
      forall i | 0 <= i < |u.ds| ensures u.ds[i].id != id {
        assert u.ds[i] == a.ds[i + 1] && a.ds[i + 1].id in PendingIds(a.ds);
        assert a.ds[0].id != a.ds[i + 1].id by { DistinctIds(a, 0, i + 1); }
      }
    }
  }

  lemma {:induction false} DrainGone(a: Agenda, scripts: seq<seq<Cmd>>, w: nat, id: nat)
    requires Good(a) && IsULong(w) && id < |a.born| && id !in PendingIds(a.ds)
    ensures id !in PendingIds(Drain(a, scripts, w).ds)
    decreases |a.ds| + CmdCount(scripts)
  {
    if a.ds != [] && a.ds[0].at == a.now {
      PopSize(a, scripts, w);
      PopPending(a, scripts, w, id, 0);
      PopGood(a, scripts, w);
      if |a.ds| > 1 && a.ds[1].at == a.now {
        DrainGone(Pop(a, scripts, w), if a.ds[0].armed then Rest(scripts) else scripts, w, id);
      }
    }
  }

  /** Every timeout that is due when the call begins has left the queue when it ends, whatever
      the handlers do meanwhile. */
  lemma {:induction false} DrainClears(a: Agenda, scripts: seq<seq<Cmd>>, w: nat, id: nat)
    requires Good(a) && IsULong(w) && Has(a.ds, id, a.now)
    ensures id !in PendingIds(Drain(a, scripts, w).ds)
    decreases |a.ds| + CmdCount(scripts)
  {
    var i :| 0 <= i < |a.ds| && a.ds[i].id == id && a.ds[i].at == a.now;
    PopSize(a, scripts, w);
    PopPending(a, scripts, w, id, a.now);
    PopGood(a, scripts, w);
    var rest := if a.ds[0].armed then Rest(scripts) else scripts;
    if |a.ds| > 1 && a.ds[1].at == a.now {
      if i == 0 {
        DrainGone(Pop(a, scripts, w), rest, w, id);
      } else {
        DistinctIds(a, 0, i);
        DrainClears(Pop(a, scripts, w), rest, w, id);
      }
    }
  }

  ghost predicate Later(a: Agenda, n: nat) {
    forall i :: 0 <= i < |a.ds| && a.ds[i].id >= n ==> a.ds[i].at > a.now
  }

  lemma InsertLater(a: Agenda, d: Deadline, n: nat)
    requires Ascending(a.ds) && Later(a, n) && d.at > a.now
    ensures Later(a.(ds := InsertSorted(a.ds, d)), n)
  {
    var k := InsertSortedAt(a.ds, d);
    var r := InsertSorted(a.ds, d);
    forall i | 0 <= i < |r| && r[i].id >= n ensures r[i].at > a.now {
      assert r[i] == if i < k then a.ds[i] else if i == k then d else a.ds[i - 1];
    }
  }

  lemma DoLater(a: Agenda, c: Cmd, w: nat, n: nat)
    requires Ascending(a.ds) && IsULong(w) && Later(a, n) && !ForNow(c)
    ensures Later(Do(a, c, w), n) && Ascending(Do(a, c, w).ds)
  {
    match c
    case Schedule(ms, handler, priv) =>
      FromMsNormal(ms, w);
      var d := Deadline(|a.born|, a.now + Usec(FromMs(ms, w)), handler, priv, true);
      InsertAscending(a.ds, d);
      if handler != 0 { InsertLater(a, d, n); }
    case Cancel(x) =>
  }

  lemma {:induction false} DoAllLater(a: Agenda, cs: seq<Cmd>, w: nat, n: nat)
    requires Ascending(a.ds) && IsULong(w) && Later(a, n) && NoneForNow(cs)
    ensures Later(DoAll(a, cs, w), n)
    decreases cs
  {
    if cs != [] {
      DoLater(a, cs[0], w, n);
      DoAllLater(Do(a, cs[0], w), cs[1..], w, n);
    }
  }

  lemma {:induction false} DoAllFired(a: Agenda, cs: seq<Cmd>, w: nat)
    requires w > 0
    ensures DoAll(a, cs, w).fired == a.fired
    decreases cs
  {
    if cs != [] { DoAllFired(Do(a, cs[0], w), cs[1..], w); }
  }

  lemma PopLater(a: Agenda, scripts: seq<seq<Cmd>>, w: nat, n: nat)
    requires Ascending(a.ds) && IsULong(w) && Later(a, n) && a.ds != [] && a.ds[0].at == a.now
    requires forall i :: 0 <= i < |scripts| ==> NoneForNow(scripts[i])
    ensures var a' := Pop(a, scripts, w);
            && Later(a', n) && a.fired <= a'.fired && |a'.fired| <= |a.fired| + 1
            && (|a'.fired| > |a.fired| ==> a'.fired[|a.fired|].id < n)
  {
    var u := Unlinked(a);
    assert a.ds[0].id < n;
    assert Later(u, n) by {
      forall i | 0 <= i < |u.ds| && u.ds[i].id >= n ensures u.ds[i].at > u.now { assert u.ds[i] == a.ds[i + 1]; }
    }
    DoAllLater(u, Script(scripts), w, n);
    DoAllFired(u, Script(scripts), w);
  }

  lemma GoodAscending(a: Agenda)
    requires Good(a)
    ensures Ascending(a.ds)
  {
  }

  /** When no handler schedules for now, a call runs handlers only of timeouts scheduled
      before it. */
  lemma {:induction false} DrainOnlyDue(a: Agenda, scripts: seq<seq<Cmd>>, w: nat, n: nat)
    requires Good(a) && IsULong(w) && Later(a, n)
    requires forall i :: 0 <= i < |scripts| ==> NoneForNow(scripts[i])
    ensures a.fired <= Drain(a, scripts, w).fired
    ensures forall i :: |a.fired| <= i < |Drain(a, scripts, w).fired| ==> Drain(a, scripts, w).fired[i].id < n
    decreases |a.ds| + CmdCount(scripts)
  {
    if a.ds != [] && a.ds[0].at == a.now {
      PopSize(a, scripts, w);
      PopGood(a, scripts, w);
      GoodAscending(a);
      PopLater(a, scripts, w, n);
      if |a.ds| > 1 && a.ds[1].at == a.now {
        DrainOnlyDue(Pop(a, scripts, w), if a.ds[0].armed then Rest(scripts) else scripts, w, n);
      }
    }
  }

  // ----- runs

  /** What happens to the queue: somebody calls it, select waits for some time, or
      handle_timeouts is called and ends, its handlers having made the calls recorded. */
  datatype Act = Make(c: Cmd) | Wait(t: TimeVal) | Handle(scripts: seq<seq<Cmd>>)

  /** select waits no longer than the first distance; handle_timeouts asserts that the queue
      is not empty. */
  predicate Possible(b: Book, act: Act) {
    match act
    case Make(_) => true
    case Wait(t) => Normal(t) && (b.q != [] ==> !Less(b.q[0].expires, t))
    case Handle(_) => b.q != []
  }

  function Turn(b: Book, act: Act, w: nat): (Book, seq<Firing>)
    requires w > 0
  {
    match act
    case Make(c) => (Call(b, c, w), [])
    case Wait(t) => (b.(q := Elapse(b.q, t)), [])
    case Handle(scripts) => DrainFrom(b, 0, scripts, w)
  }

  function TurnAgenda(a: Agenda, act: Act, w: nat): Agenda
    requires w > 0
  {
    match act
    case Make(c) => Do(a, c, w)
    case Wait(t) => a.(now := a.now + Usec(t))
    case Handle(scripts) => Drain(a, scripts, w)
  }

  ghost predicate Legal(b: Book, run: seq<Act>, w: nat)
    requires w > 0
    decreases run
  {
    run == [] || (Possible(b, run[0]) && Legal(Turn(b, run[0], w).0, run[1..], w))
  }

  function RunBook(b: Book, run: seq<Act>, w: nat): Book
    requires w > 0
    decreases run
  {
    if run == [] then b else RunBook(Turn(b, run[0], w).0, run[1..], w)
  }

  /** All handler calls of a run. */
  function RunFirings(b: Book, run: seq<Act>, w: nat): seq<Firing>
    requires w > 0
    decreases run
  {
    if run == [] then [] else Turn(b, run[0], w).1 + RunFirings(Turn(b, run[0], w).0, run[1..], w)
  }

  function RunAgenda(a: Agenda, run: seq<Act>, w: nat): Agenda
    requires w > 0
    decreases run
  {
    if run == [] then a else RunAgenda(TurnAgenda(a, run[0], w), run[1..], w)
  }

  function FiringOf(f: Fired): Firing { Firing(f.id, f.handler, f.priv) }

  function Unstamp(fs: seq<Fired>): (r: seq<Firing>)
    ensures |r| == |fs| && forall i :: 0 <= i < |fs| ==> r[i] == FiringOf(fs[i])
  {
    seq(|fs|, i requires 0 <= i < |fs| => FiringOf(fs[i]))
  }

  ghost predicate Matches(b: Book, a: Agenda) { Rel(b, a) && Good(a) }

  lemma {:induction false} AbsoluteIds(q: seq<Timer>, now: int, i: nat)
    requires i < |q|
    ensures Absolute(q, now)[i].id == q[i].id
  {
    if i > 0 { AbsoluteIds(q[1..], now + Usec(q[0].expires), i - 1); }
  }

  lemma RelIds(b: Book, a: Agenda)
    requires Matches(b, a)
    ensures IdsBelow(b)
  {
    forall i | 0 <= i < |b.q| ensures b.q[i].id == a.ds[i].id { AbsoluteIds(b.q, a.now, i); }
  }

  lemma WaitMatches(b: Book, a: Agenda, t: TimeVal)
    requires Matches(b, a) && Possible(b, Wait(t))
    ensures Matches(b.(q := Elapse(b.q, t)), a.(now := a.now + Usec(t)))
  {
    ElapseRefines(b.q, t, a.now);
    AbsoluteSorted(Elapse(b.q, t), a.now + Usec(t));
  }

  lemma UnstampStamp(fs: seq<Fired>, gs: seq<Firing>, now: int)
    ensures Unstamp(fs + Stamp(gs, now)) == Unstamp(fs) + gs
  {
  }

  lemma TurnMatches(b: Book, a: Agenda, act: Act, w: nat)
    requires Matches(b, a) && Possible(b, act) && IsULong(w)
    ensures Matches(Turn(b, act, w).0, TurnAgenda(a, act, w))
    ensures Unstamp(TurnAgenda(a, act, w).fired) == Unstamp(a.fired) + Turn(b, act, w).1
  {
    match act
    case Make(c) =>
      CallRefines(b, a, c, w);
      DoGood(a, c, w);
    case Wait(t) => WaitMatches(b, a, t);
    case Handle(scripts) =>
      RelIds(b, a);
      DrainRefines(b, a, scripts, w);
      DrainGood(a, scripts, w);
      UnstampStamp(a.fired, DrainFrom(b, 0, scripts, w).1, a.now);
  }

  lemma Regroup<A>(x: seq<A>, y: seq<A>, z: seq<A>)
    ensures (x + y) + z == x + (y + z)
  {
  }

  /** Over every run the queue of distances and the agenda call the same handlers, and the
      agenda stays good. */
  lemma {:induction false} RunMatches(b: Book, a: Agenda, run: seq<Act>, w: nat)
    requires Matches(b, a) && IsULong(w) && Legal(b, run, w)
    ensures Matches(RunBook(b, run, w), RunAgenda(a, run, w))
    ensures Unstamp(RunAgenda(a, run, w).fired) == Unstamp(a.fired) + RunFirings(b, run, w)
    decreases run
  {
    if run != [] {
      TurnMatches(b, a, run[0], w);
      RunMatches(Turn(b, run[0], w).0, TurnAgenda(a, run[0], w), run[1..], w);
      Regroup(Unstamp(a.fired), Turn(b, run[0], w).1, RunFirings(Turn(b, run[0], w).0, run[1..], w));
    }
  }

  const EMPTY: Book := Book([], 0)
  const NEW: Agenda := Agenda(0, [], [], [], {})

  lemma FiredOnce(a: Agenda)
    requires FiredOk(a) && Ordered(a)
    ensures forall i, j :: 0 <= i < j < |a.fired| ==> a.fired[i].id != a.fired[j].id
  {
    forall i, j | 0 <= i < j < |a.fired| ensures a.fired[i].id != a.fired[j].id {
      assert Precedes(a.fired[i].time, a.fired[i].id, a.fired[j].time, a.fired[j].id);
      assert a.born[a.fired[i].id].at == a.fired[i].time && a.born[a.fired[j].id].at == a.fired[j].time;
    }
  }

  /** Every handler call of a run is made exactly when the delay of its timeout has elapsed,
      with the handler and argument it was scheduled with; calls are made in the order of
      their deadlines and, among equal ones, of scheduling, and none is made twice; a timeout
      cancelled before it fires never does; and none is forgotten. */
  lemma HandlersOnTime(run: seq<Act>, w: nat) returns (a: Agenda)
    requires IsULong(w) && Legal(EMPTY, run, w)
    ensures a == RunAgenda(NEW, run, w) && Unstamp(a.fired) == RunFirings(EMPTY, run, w)
    ensures FiredOk(a) && Ordered(a) && Known(a)
    ensures forall i, j :: 0 <= i < j < |a.fired| ==> a.fired[i].id != a.fired[j].id
  {
    a := RunAgenda(NEW, run, w);
    RunMatches(EMPTY, NEW, run, w);
    FiredOnce(a);
  }

  /** In a run, handle_timeouts leaves nothing behind that was due when it was called. */
  lemma {:induction false} HandleClears(run: seq<Act>, scripts: seq<seq<Cmd>>, w: nat, i: nat)
    requires IsULong(w) && Legal(EMPTY, run, w)
    requires var a := RunAgenda(NEW, run, w); i < |a.ds| && a.ds[i].at == a.now
    ensures var b, a := RunBook(EMPTY, run, w), RunAgenda(NEW, run, w);
            var b' := DrainFrom(b, 0, scripts, w).0;
            IndexOf(b'.q, a.ds[i].id) == |b'.q|
  {
    var b, a := RunBook(EMPTY, run, w), RunAgenda(NEW, run, w);
    RunMatches(EMPTY, NEW, run, w);
    RelIds(b, a);
    DrainRefines(b, a, scripts, w);
    assert Has(a.ds, a.ds[i].id, a.now);
    DrainClears(a, scripts, w, a.ds[i].id);
    var b', a' := DrainFrom(b, 0, scripts, w).0, Drain(a, scripts, w);
    var k := IndexOf(b'.q, a.ds[i].id);
    if k < |b'.q| {
      AbsoluteIds(b'.q, a'.now, k);
    }
  }
}
