/** What the timer queue is for: an agenda of absolute deadlines with a clock. The queue of
    distances refines it, over any run. */
module Agenda {
  import opened Words
  import opened Timers
  import opened TimerRuns

  /** What a timeout was scheduled for. */
  datatype Born = Born(at: int, handler: nat, priv: nat)

  /** A handler call and when it was made. */
  datatype Fired = Fired(id: nat, time: int, handler: nat, priv: nat)

  /** The clock counts the time spent waiting in select. `born` lists everything ever
      scheduled, by id; `cancelled` the timeouts that were cancelled before they fired. */
  datatype Agenda = Agenda(now: int, ds: seq<Deadline>, born: seq<Born>, fired: seq<Fired>, cancelled: set<nat>)

  function PendingIds(ds: seq<Deadline>): set<nat> { set i | 0 <= i < |ds| :: ds[i].id }

  function FiredIds(fs: seq<Fired>): set<nat> { set i | 0 <= i < |fs| :: fs[i].id }

  function Do(a: Agenda, c: Cmd, w: nat): Agenda
    requires w > 0
  {
    match c
    case Schedule(ms, handler, priv) =>
      if handler == 0 then a
      else
        var at := a.now + Usec(FromMs(ms, w));
        a.(ds := InsertSorted(a.ds, Deadline(|a.born|, at, handler, priv, true)),
           born := a.born + [Born(at, handler, priv)])
    case Cancel(id) =>
      a.(ds := DisarmIn(a.ds, id),
         cancelled := if id < |a.born| && id !in FiredIds(a.fired) then a.cancelled + {id} else a.cancelled)
  }

  function DoAll(a: Agenda, cs: seq<Cmd>, w: nat): Agenda
    requires w > 0
    decreases cs
  {
    if cs == [] then a else DoAll(Do(a, cs[0], w), cs[1..], w)
  }

  /** Takes the first deadline off; if it is armed its handler is called and makes its calls. */
  function Pop(a: Agenda, scripts: seq<seq<Cmd>>, w: nat): Agenda
    requires w > 0 && a.ds != []
  {
    var d := a.ds[0];
    if d.armed
    then DoAll(a.(ds := a.ds[1..], fired := a.fired + [Fired(d.id, a.now, d.handler, d.priv)]), Script(scripts), w)
    else a.(ds := a.ds[1..])
  }

  lemma {:induction false} DoAllSize(a: Agenda, cs: seq<Cmd>, w: nat)
    requires w > 0
    ensures |DoAll(a, cs, w).ds| <= |a.ds| + |cs|
    decreases cs
  {
    if cs != [] { DoAllSize(Do(a, cs[0], w), cs[1..], w); }
  }

  lemma PopSize(a: Agenda, scripts: seq<seq<Cmd>>, w: nat)
    requires w > 0 && a.ds != []
    ensures |Pop(a, scripts, w).ds| <= |a.ds| - 1 + if a.ds[0].armed then |Script(scripts)| else 0
  {
    var d := a.ds[0];
    DoAllSize(a.(ds := a.ds[1..], fired := a.fired + [Fired(d.id, a.now, d.handler, d.priv)]), Script(scripts), w);
  }

  /** Draining: while the first deadline is now, take it off. The deadline behind it is looked
      at before the handler runs; if there is none, or it is not due, this was the last. */
  function Drain(a: Agenda, scripts: seq<seq<Cmd>>, w: nat): Agenda
    requires w > 0
    decreases |a.ds| + CmdCount(scripts)
  {
    if a.ds == [] || a.ds[0].at != a.now then a
    else
      PopSize(a, scripts, w);
      var a' := Pop(a, scripts, w);
      if |a.ds| == 1 || a.ds[1].at != a.now then a'
      else Drain(a', if a.ds[0].armed then Rest(scripts) else scripts, w)
  }

  // ----- the queue refines the agenda

  ghost predicate Rel(b: Book, a: Agenda) {
    AllNormal(b.q) && Absolute(b.q, a.now) == a.ds && b.nextId == |a.born|
  }

  lemma CallRefines(b: Book, a: Agenda, c: Cmd, w: nat)
    requires IsULong(w) && Rel(b, a)
    ensures Rel(Call(b, c, w), Do(a, c, w)) && Do(a, c, w).now == a.now && Do(a, c, w).fired == a.fired
  {
    CallNormal(b, c, w);
    match c
    case Schedule(ms, handler, priv) =>
      FromMsNormal(ms, w);
      InsertRefines(b.q, Timer(b.nextId, FromMs(ms, w), handler, priv, true), a.now);
    case Cancel(id) => DisarmRefines(b.q, id, a.now);
  }

  lemma {:induction false} CallsRefine(b: Book, a: Agenda, cs: seq<Cmd>, w: nat)
    requires IsULong(w) && Rel(b, a)
    ensures Rel(Calls(b, cs, w), DoAll(a, cs, w))
    ensures DoAll(a, cs, w).now == a.now && DoAll(a, cs, w).fired == a.fired
    decreases cs
  {
    if cs != [] {
      CallRefines(b, a, cs[0], w);
      CallsRefine(Call(b, cs[0], w), Do(a, cs[0], w), cs[1..], w);
    }
  }

  /** The handler calls as the code makes them: the time is when they are made. */
  function Stamp(fs: seq<Firing>, now: int): (r: seq<Fired>)
    ensures |r| == |fs|
    ensures forall i :: 0 <= i < |fs| ==> r[i] == Fired(fs[i].id, now, fs[i].handler, fs[i].priv)
  {
    seq(|fs|, i requires 0 <= i < |fs| => Fired(fs[i].id, now, fs[i].handler, fs[i].priv))
  }

  lemma HeadDeadline(b: Book, a: Agenda)
    requires Rel(b, a) && b.q != []
    ensures a.ds != [] && a.ds[0] == DeadlineOf(b.q[0], a.now)
    ensures b.q[0].expires == ZERO <==> a.ds[0].at == a.now
    ensures Absolute(b.q[1..], a.ds[0].at) == a.ds[1..] && AllNormal(b.q[1..])
    ensures |b.q| == |a.ds|
    ensures |b.q| > 1 && b.q[0].expires == ZERO ==>
              (b.q[1].expires == ZERO <==> a.ds[1].at == a.now)
  {
    TimeValArithmetic(b.q[0].expires, ZERO);
    if |b.q| > 1 {
      assert Normal(b.q[1].expires);
      TimeValArithmetic(b.q[1].expires, ZERO);
      assert b.q[1..][0] == b.q[1];
    }
  }

  lemma PopRefines(b: Book, a: Agenda, scripts: seq<seq<Cmd>>, w: nat)
    requires IsULong(w) && Rel(b, a) && b.q != [] && b.q[0].expires == ZERO
    ensures a.ds != []
    ensures var t := b.q[0];
            var a' := Pop(a, scripts, w);
            && Rel(AfterEntry(b, 0, scripts, w), a') && a'.now == a.now
            && a'.fired == a.fired + if t.armed then [Fired(t.id, a.now, t.handler, t.priv)] else []
  {
    HeadDeadline(b, a);
    var d := a.ds[0];
    var b1 := b.(q := b.q[..0] + b.q[1..]);
    assert b1.q == b.q[1..];
    if d.armed {
      var a1 := a.(ds := a.ds[1..], fired := a.fired + [Fired(d.id, a.now, d.handler, d.priv)]);
      CallsRefine(b1, a1, Script(scripts), w);
    }
  }

  /** A call of handle_timeouts that started with agenda a left queue and agenda a', and made
      the calls fired. */
  ghost predicate Agrees(r: (Book, seq<Firing>), a: Agenda, a': Agenda) {
    Rel(r.0, a') && a'.fired == a.fired + Stamp(r.1, a.now)
  }

  lemma StampJoin(a: Agenda, t: Timer, fs: seq<Firing>)
    ensures var f := if t.armed then [Firing(t.id, t.handler, t.priv)] else [];
            Stamp(f + fs, a.now) == (if t.armed then [Fired(t.id, a.now, t.handler, t.priv)] else []) + Stamp(fs, a.now)
  {
  }

  lemma AgreesAfter(t: Timer, r: (Book, seq<Firing>), a: Agenda, a2: Agenda, a': Agenda)
    requires Agrees(r, a2, a') && a2.now == a.now
    requires a2.fired == a.fired + if t.armed then [Fired(t.id, a.now, t.handler, t.priv)] else []
    ensures Agrees((r.0, (if t.armed then [Firing(t.id, t.handler, t.priv)] else []) + r.1), a, a')
  {
    StampJoin(a, t, r.1);
    var f := if t.armed then [Fired(t.id, a.now, t.handler, t.priv)] else [];
    assert (a.fired + f) + Stamp(r.1, a.now) == a.fired + (f + Stamp(r.1, a.now));
  }

  lemma NothingDue(b: Book, a: Agenda, scripts: seq<seq<Cmd>>, w: nat)
    requires IsULong(w) && Rel(b, a) && (b.q == [] || b.q[0].expires != ZERO)
    ensures Agrees(DrainFrom(b, 0, scripts, w), a, Drain(a, scripts, w))
  {
    if b.q != [] { HeadDeadline(b, a); }
    assert a.fired + Stamp([], a.now) == a.fired;
  }

  lemma StopsHere(b: Book, cur: nat, scripts: seq<seq<Cmd>>, w: nat, a: Agenda)
    requires w > 0 && cur <= |b.q| && (cur == |b.q| || b.q[cur].expires != ZERO) && Rel(b, a)
    ensures Agrees(DrainFrom(b, cur, scripts, w), a, a)
  {
    assert a.fired + Stamp([], a.now) == a.fired;
  }

  lemma SizeDrops(b: Book, scripts: seq<seq<Cmd>>, w: nat)
    requires w > 0 && b.q != []
    ensures |AfterEntry(b, 0, scripts, w).q| + CmdCount(if b.q[0].armed then Rest(scripts) else scripts)
            < |b.q| + CmdCount(scripts)
  {
    CallsSize(b.(q := b.q[..0] + b.q[1..]), Script(scripts), w);
  }

  /** One round of the loop and one of the agenda. */
  lemma DrainUnfolds(b: Book, a: Agenda, scripts: seq<seq<Cmd>>, w: nat)
    requires w > 0 && b.q != [] && b.q[0].expires == ZERO && a.ds != [] && a.ds[0].at == a.now
    requires a.ds[0].armed == b.q[0].armed
    ensures var t, b2, a2 := b.q[0], AfterEntry(b, 0, scripts, w), Pop(a, scripts, w);
            var rest := if t.armed then Rest(scripts) else scripts;
            var r := DrainFrom(b2, Cursor(b, 0, b2), rest, w);
            && DrainFrom(b, 0, scripts, w)
            == (r.0, (if t.armed then [Firing(t.id, t.handler, t.priv)] else []) + r.1)
            && Drain(a, scripts, w)
            == if |a.ds| == 1 || a.ds[1].at != a.now then a2 else Drain(a2, rest, w)
  {
  }

  ghost predicate IdsBelow(b: Book) { forall i :: 0 <= i < |b.q| ==> b.q[i].id < b.nextId }

  lemma DrainStep(b: Book, a: Agenda, scripts: seq<seq<Cmd>>, w: nat)
    requires IsULong(w) && Rel(b, a) && b.q != [] && b.q[0].expires == ZERO && IdsBelow(b)
    ensures a.ds != [] && a.ds[0].at == a.now && a.ds[0].armed == b.q[0].armed
    ensures var b2, a2 := AfterEntry(b, 0, scripts, w), Pop(a, scripts, w);
            var i := Cursor(b, 0, b2);
            && Rel(b2, a2) && a2.now == a.now
            && (a2.fired == a.fired + if b.q[0].armed
                                      then [Fired(b.q[0].id, a.now, b.q[0].handler, b.q[0].priv)] else [])
            && (|b.q| > 1 && b.q[1].expires == ZERO ==> i == 0 && |a.ds| > 1 && a.ds[1].at == a.now)
            && (|b.q| == 1 || b.q[1].expires != ZERO ==>
                  (|a.ds| == 1 || a.ds[1].at != a.now) && (i == |b2.q| || b2.q[i].expires != ZERO))
  {
    HeadDeadline(b, a);
    PopRefines(b, a, scripts, w);
    CursorIsSafe(b, scripts, w);
  }

  lemma {:induction false} InsertIds(q: seq<Timer>, t: Timer, n: nat)
    requires t.id < n && forall i :: 0 <= i < |q| ==> q[i].id < n
    ensures forall i :: 0 <= i < |Insert(q, t)| ==> Insert(q, t)[i].id < n
  {
    if q != [] && !Less(t.expires, q[0].expires) {
      InsertIds(q[1..], t.(expires := Sub(t.expires, q[0].expires)), n);
    }
  }

  lemma {:induction false} DisarmIds(q: seq<Timer>, id: nat, n: nat)
    requires forall i :: 0 <= i < |q| ==> q[i].id < n
    ensures forall i :: 0 <= i < |Disarm(q, id)| ==> Disarm(q, id)[i].id < n
  {
    if q != [] { DisarmIds(q[1..], id, n); }
  }

  lemma {:induction false} CallsIds(b: Book, cs: seq<Cmd>, w: nat)
    requires w > 0 && IdsBelow(b)
    ensures IdsBelow(Calls(b, cs, w))
    decreases cs
  {
    if cs != [] {
      match cs[0] {
        case Schedule(ms, handler, priv) =>
          InsertIds(b.q, Timer(b.nextId, FromMs(ms, w), handler, priv, true), b.nextId + 1);
        case Cancel(id) => DisarmIds(b.q, id, b.nextId);
      }
      CallsIds(Call(b, cs[0], w), cs[1..], w);
    }
  }

  lemma IdsKept(b: Book, scripts: seq<seq<Cmd>>, w: nat)
    requires w > 0 && b.q != [] && IdsBelow(b)
    ensures IdsBelow(AfterEntry(b, 0, scripts, w))
  {
    var b1 := b.(q := b.q[..0] + b.q[1..]);
    assert b1.q == b.q[1..];
    CallsIds(b1, Script(scripts), w);
  }

  /** handle_timeouts drains the agenda: with the cursor saved before each handler runs, it
      makes the same handler calls and leaves the same deadlines. */
  lemma {:induction false} DrainRefines(b: Book, a: Agenda, scripts: seq<seq<Cmd>>, w: nat)
    requires IsULong(w) && Rel(b, a) && IdsBelow(b)
    ensures Agrees(DrainFrom(b, 0, scripts, w), a, Drain(a, scripts, w))
    decreases |b.q| + CmdCount(scripts)
  {
    if b.q == [] || b.q[0].expires != ZERO {
      NothingDue(b, a, scripts, w);
    } else {
      DrainStep(b, a, scripts, w);
      var b2, a2 := AfterEntry(b, 0, scripts, w), Pop(a, scripts, w);
      var rest := if b.q[0].armed then Rest(scripts) else scripts;
      var r := DrainFrom(b2, Cursor(b, 0, b2), rest, w);
      DrainUnfolds(b, a, scripts, w);
      if |b.q| > 1 && b.q[1].expires == ZERO {
        IdsKept(b, scripts, w);
        SizeDrops(b, scripts, w);
        DrainRefines(b2, a2, rest, w);
        AgreesAfter(b.q[0], r, a, a2, Drain(a2, rest, w));
      } else {
        StopsHere(b2, Cursor(b, 0, b2), rest, w, a2);
        AgreesAfter(b.q[0], r, a, a2, a2);
      }
    }
  }
}
