/** A run of the timer queue against the calls made in it: who scheduled or cancelled what and
    when, written down as the run goes, by programs and by every handler that is called. */
module Ledger {
  import opened Words
  import opened Timers
  import opened TimerRuns
  import opened Agenda
  import opened Timeliness

  /** A call: when it was made, after how many handler calls, and what it was. */
  datatype Entry = Entry(time: int, before: nat, cmd: Cmd)

  // ----- writing the ledger

  function Entered(time: int, before: nat, cs: seq<Cmd>): seq<Entry> {
    if cs == [] then [] else [Entry(time, before, cs[0])] + Entered(time, before, cs[1..])
  }

  /** The calls of the first n handlers called. */
  function EnteredIn(time: int, before: nat, scripts: seq<seq<Cmd>>, n: nat): seq<Entry>
    decreases n
  {
    if n == 0 || scripts == [] then []
    else Entered(time, before + 1, scripts[0]) + EnteredIn(time, before + 1, scripts[1..], n - 1)
  }

  function EnteredBy(time: int, before: nat, act: Act, called: nat): seq<Entry> {
    match act
    case Make(c) => [Entry(time, before, c)]
    case Wait(_) => []
    case Handle(scripts) => EnteredIn(time, before, scripts, called)
  }

  function Waited(act: Act): int { if act.Wait? then Usec(act.t) else 0 }

  /** All calls of a run that starts at time now, after `before` handler calls. */
  function Log(b: Book, now: int, before: nat, run: seq<Act>, w: nat): seq<Entry>
    requires w > 0
    decreases run
  {
    if run == [] then []
    else
      var (b', fired) := Turn(b, run[0], w);
      EnteredBy(now, before, run[0], |fired|)
      + Log(b', now + Waited(run[0]), before + |fired|, run[1..], w)
  }

  /** All handler calls of a run, with their times. */
  function Times(b: Book, now: int, run: seq<Act>, w: nat): seq<Fired>
    requires w > 0
    decreases run
  {
    if run == [] then []
    else Stamp(Turn(b, run[0], w).1, now) + Times(Turn(b, run[0], w).0, now + Waited(run[0]), run[1..], w)
  }

  function Clock(run: seq<Act>): int {
    if run == [] then 0 else Waited(run[0]) + Clock(run[1..])
  }

  predicate Schedules(c: Cmd) { c.Schedule? && c.handler != 0 }

  /** The entries that schedule a timeout; its id is its place among them. */
  function Wishes(log: seq<Entry>): (ws: seq<Entry>)
    ensures forall i :: 0 <= i < |ws| ==> Schedules(ws[i].cmd)
  {
    if log == [] then [] else (if Schedules(log[0].cmd) then [log[0]] else []) + Wishes(log[1..])
  }

  lemma {:induction false} WishesPlus(x: seq<Entry>, y: seq<Entry>)
    ensures Wishes(x + y) == Wishes(x) + Wishes(y)
  {
    if x == [] {
      assert x + y == y;
    } else {
      assert (x + y)[1..] == x[1..] + y;
      WishesPlus(x[1..], y);
    }
  }

  lemma WishesOne(e: Entry)
    ensures Wishes([e]) == if Schedules(e.cmd) then [e] else []
  {
    assert [e][1..] == [];
  }

  // ----- the agenda agrees with it

  function BornOf(e: Entry, w: nat): Born
    requires w > 0 && e.cmd.Schedule?
  {
    Born(e.time + Usec(FromMs(e.cmd.ms, w)), e.cmd.handler, e.cmd.priv)
  }

  ghost predicate BornAsWished(a: Agenda, log: seq<Entry>, w: nat)
    requires w > 0
  {
    |a.born| == |Wishes(log)| && forall i :: 0 <= i < |a.born| ==> a.born[i] == BornOf(Wishes(log)[i], w)
  }

  /** A call that cancels a timeout scheduled before had its effect, unless its handler had
      been called already. */
  ghost predicate Heeded(a: Agenda, log: seq<Entry>, p: nat)
    requires p < |log|
  {
    && log[p].before <= |a.fired|
    && (log[p].cmd.Cancel? && log[p].cmd.id < |Wishes(log[..p])| ==>
          log[p].cmd.id in a.cancelled || log[p].cmd.id in FiredIds(a.fired[..log[p].before]))
  }

  ghost predicate Cancels(log: seq<Entry>, id: nat) { exists p :: 0 <= p < |log| && log[p].cmd == Cancel(id) }

  ghost predicate Kept(a: Agenda, log: seq<Entry>, w: nat)
    requires w > 0
  {
    && BornAsWished(a, log, w)
    && (forall p :: 0 <= p < |log| ==> Heeded(a, log, p))
    && (forall id :: id in a.cancelled ==> Cancels(log, id))
  }

  lemma DoBorn(a: Agenda, log: seq<Entry>, c: Cmd, w: nat)
    requires w > 0 && BornAsWished(a, log, w)
    ensures BornAsWished(Do(a, c, w), log + [Entry(a.now, |a.fired|, c)], w)
  {
    WishesPlus(log, [Entry(a.now, |a.fired|, c)]);
    WishesOne(Entry(a.now, |a.fired|, c));
  }

  lemma DoHeeds(a: Agenda, log: seq<Entry>, c: Cmd, w: nat, p: nat)
    requires w > 0 && Kept(a, log, w) && p <= |log|
    ensures Heeded(Do(a, c, w), log + [Entry(a.now, |a.fired|, c)], p)
  {
    var log' := log + [Entry(a.now, |a.fired|, c)];
    if p < |log| {
      assert log'[..p] == log[..p] && log'[p] == log[p] && Heeded(a, log, p);
    } else {
      assert log'[..p] == log && a.fired[..|a.fired|] == a.fired;
    }
  }

  lemma CancelsMore(log: seq<Entry>, more: seq<Entry>, id: nat)
    requires Cancels(log, id)
    ensures Cancels(log + more, id)
  {
    var p :| 0 <= p < |log| && log[p].cmd == Cancel(id);
    assert (log + more)[p].cmd == Cancel(id);
  }

  lemma DoKept(a: Agenda, log: seq<Entry>, c: Cmd, w: nat)
    requires w > 0 && Kept(a, log, w)
    ensures Kept(Do(a, c, w), log + [Entry(a.now, |a.fired|, c)], w)
    ensures Do(a, c, w).now == a.now && Do(a, c, w).fired == a.fired
  {
    var a', more := Do(a, c, w), [Entry(a.now, |a.fired|, c)];
    DoBorn(a, log, c, w);
    forall p | 0 <= p < |log + more| ensures Heeded(a', log + more, p) { DoHeeds(a, log, c, w, p); }
    forall id | id in a'.cancelled ensures Cancels(log + more, id) {
      if id in a.cancelled { CancelsMore(log, more, id); } else { assert (log + more)[|log|].cmd == Cancel(id); }
    }
  }

  lemma {:induction false} DoAllKept(a: Agenda, log: seq<Entry>, cs: seq<Cmd>, w: nat)
    requires w > 0 && Kept(a, log, w)
    ensures Kept(DoAll(a, cs, w), log + Entered(a.now, |a.fired|, cs), w)
    ensures DoAll(a, cs, w).now == a.now && DoAll(a, cs, w).fired == a.fired
    decreases cs
  {
    if cs == [] {
      assert log + [] == log;
    } else {
      DoKept(a, log, cs[0], w);
      var more := [Entry(a.now, |a.fired|, cs[0])];
      DoAllKept(Do(a, cs[0], w), log + more, cs[1..], w);
      assert (log + more) + Entered(a.now, |a.fired|, cs[1..]) == log + (more + Entered(a.now, |a.fired|, cs[1..]));
    }
  }

  /** Taking the first deadline off, with or without a handler call, undoes nothing. */
  lemma UnlinkKept(a: Agenda, log: seq<Entry>, w: nat, fired: seq<Fired>)
    requires w > 0 && Kept(a, log, w) && a.ds != [] && |fired| <= 1
    ensures Kept(a.(ds := a.ds[1..], fired := a.fired + fired), log, w)
  {
    var a' := a.(ds := a.ds[1..], fired := a.fired + fired);
    forall p | 0 <= p < |log| ensures Heeded(a', log, p) {
      assert Heeded(a, log, p);
      assert a'.fired[..log[p].before] == a.fired[..log[p].before];
    }
  }

  lemma PopKept(a: Agenda, log: seq<Entry>, scripts: seq<seq<Cmd>>, w: nat)
    requires w > 0 && Kept(a, log, w) && a.ds != []
    ensures var a', d := Pop(a, scripts, w), a.ds[0];
            && a'.now == a.now
            && (d.armed ==>
                  && a'.fired == a.fired + [Fired(d.id, a.now, d.handler, d.priv)]
                  && Kept(a', log + (if scripts == [] then [] else Entered(a.now, |a.fired| + 1, scripts[0])), w))
            && (!d.armed ==> a'.fired == a.fired && Kept(a', log, w))
  {
    var d := a.ds[0];
    if d.armed {
      var fired := [Fired(d.id, a.now, d.handler, d.priv)];
      UnlinkKept(a, log, w, fired);
      DoAllKept(a.(ds := a.ds[1..], fired := a.fired + fired), log, Script(scripts), w);
    } else {
      UnlinkKept(a, log, w, []);
      assert a.fired + [] == a.fired;
    }
  }

  lemma {:induction false} DoAllNow(a: Agenda, cs: seq<Cmd>, w: nat)
    requires w > 0
    ensures DoAll(a, cs, w).now == a.now && DoAll(a, cs, w).fired == a.fired
    decreases cs
  {
    if cs != [] { DoAllNow(Do(a, cs[0], w), cs[1..], w); }
  }

  lemma PopNow(a: Agenda, scripts: seq<seq<Cmd>>, w: nat)
    requires w > 0 && a.ds != []
    ensures var a', d := Pop(a, scripts, w), a.ds[0];
            a'.now == a.now && |a'.fired| == |a.fired| + if d.armed then 1 else 0
  {
    var d := a.ds[0];
    DoAllNow(a.(ds := a.ds[1..], fired := a.fired + [Fired(d.id, a.now, d.handler, d.priv)]), Script(scripts), w);
  }

  lemma {:induction false} DrainGrows(a: Agenda, scripts: seq<seq<Cmd>>, w: nat)
    requires w > 0
    ensures |a.fired| <= |Drain(a, scripts, w).fired| && Drain(a, scripts, w).now == a.now
    decreases |a.ds| + CmdCount(scripts)
  {
    if a.ds != [] && a.ds[0].at == a.now {
      PopSize(a, scripts, w);
      PopNow(a, scripts, w);
      if |a.ds| > 1 && a.ds[1].at == a.now {
        DrainGrows(Pop(a, scripts, w), if a.ds[0].armed then Rest(scripts) else scripts, w);
      }
    }
  }

  lemma LastRound(a: Agenda, log: seq<Entry>, scripts: seq<seq<Cmd>>)
    ensures log + EnteredIn(a.now, |a.fired|, scripts, 0) == log
    ensures log + EnteredIn(a.now, |a.fired|, scripts, 1)
         == log + if scripts == [] then [] else Entered(a.now, |a.fired| + 1, scripts[0])
  {
    assert scripts != [] ==> EnteredIn(a.now, |a.fired| + 1, scripts[1..], 0) == [];
  }

  lemma MoreRounds(a: Agenda, log: seq<Entry>, scripts: seq<seq<Cmd>>, n: nat)
    ensures (log + if scripts == [] then [] else Entered(a.now, |a.fired| + 1, scripts[0]))
            + EnteredIn(a.now, |a.fired| + 1, Rest(scripts), n)
         == log + EnteredIn(a.now, |a.fired|, scripts, n + 1)
  {
  }

  /** Draining keeps the ledger, with all calls of all handlers called written down. */
  lemma {:induction false} DrainKept(a: Agenda, log: seq<Entry>, scripts: seq<seq<Cmd>>, w: nat)
    requires w > 0 && Kept(a, log, w)
    ensures var a' := Drain(a, scripts, w);
            && |a.fired| <= |a'.fired|
            && Kept(a', log + EnteredIn(a.now, |a.fired|, scripts, |a'.fired| - |a.fired|), w)
    decreases |a.ds| + CmdCount(scripts)
  {
    DrainGrows(a, scripts, w);
    if a.ds == [] || a.ds[0].at != a.now {
      assert log + [] == log;
    } else {
      PopSize(a, scripts, w);
      PopKept(a, log, scripts, w);
      var a2 := Pop(a, scripts, w);
      var log2 := log + if a.ds[0].armed && scripts != [] then Entered(a.now, |a.fired| + 1, scripts[0]) else [];
      var rest := if a.ds[0].armed then Rest(scripts) else scripts;
      assert log + [] == log;
      if |a.ds| == 1 || a.ds[1].at != a.now {
        LastRound(a, log, scripts);
      } else {
        DrainKept(a2, log2, rest, w);
        MoreRounds(a, log, scripts, |Drain(a2, rest, w).fired| - |a2.fired|);
      }
    }
  }

  // ----- over runs

  /** Queue, agenda and ledger agree. */
  ghost predicate Settled(b: Book, a: Agenda, log: seq<Entry>, w: nat)
    requires w > 0
  {
    Matches(b, a) && Kept(a, log, w)
  }

  lemma TurnFired(b: Book, a: Agenda, act: Act, w: nat)
    requires Matches(b, a) && Possible(b, act) && IsULong(w)
    ensures TurnAgenda(a, act, w).fired == a.fired + Stamp(Turn(b, act, w).1, a.now)
    ensures TurnAgenda(a, act, w).now == a.now + Waited(act)
  {
    assert a.fired + Stamp([], a.now) == a.fired;
    match act
    case Make(c) => CallRefines(b, a, c, w);
    case Wait(t) =>
    case Handle(scripts) =>
      RelIds(b, a);
      DrainRefines(b, a, scripts, w);
      DrainGood(a, scripts, w);
  }

  lemma WaitKept(a: Agenda, log: seq<Entry>, now: int, w: nat)
    requires w > 0 && Kept(a, log, w)
    ensures Kept(a.(now := now), log, w)
  {
    forall p | 0 <= p < |log| ensures Heeded(a.(now := now), log, p) { assert Heeded(a, log, p); }
  }

  lemma TurnSettled(b: Book, a: Agenda, log: seq<Entry>, act: Act, w: nat)
    requires IsULong(w) && Settled(b, a, log, w) && Possible(b, act)
    ensures var (b', fired) := Turn(b, act, w);
            Settled(b', TurnAgenda(a, act, w), log + EnteredBy(a.now, |a.fired|, act, |fired|), w)
  {
    TurnMatches(b, a, act, w);
    TurnFired(b, a, act, w);
    match act
    case Make(c) => DoKept(a, log, c, w);
    case Wait(t) =>
      WaitKept(a, log, a.now + Usec(t), w);
      assert log + [] == log;
    case Handle(scripts) => DrainKept(a, log, scripts, w);
  }

  /** A run under way: the queue, the agenda, and what was written down: the calls, the handler
      calls with their times, and the clock. */
  datatype Record = Record(b: Book, a: Agenda, log: seq<Entry>, times: seq<Fired>, now: int)

  function Turned(x: Record, act: Act, w: nat): Record
    requires w > 0
  {
    var (b', fired) := Turn(x.b, act, w);
    Record(b', TurnAgenda(x.a, act, w), x.log + EnteredBy(x.now, |x.times|, act, |fired|),
           x.times + Stamp(fired, x.now), x.now + Waited(act))
  }

  function Recorded(x: Record, run: seq<Act>, w: nat): Record
    requires w > 0
    decreases run
  {
    if run == [] then x else Recorded(Turned(x, run[0], w), run[1..], w)
  }

  ghost predicate RecordOk(x: Record, w: nat)
    requires w > 0
  {
    Settled(x.b, x.a, x.log, w) && x.a.fired == x.times && x.a.now == x.now
  }

  /** Over every run the ledger is kept, and the agenda's clock and handler calls are those
      written down. */
  lemma {:induction false} RunSettled(x: Record, run: seq<Act>, w: nat)
    requires IsULong(w) && RecordOk(x, w) && Legal(x.b, run, w)
    ensures RecordOk(Recorded(x, run, w), w)
    decreases run
  {
    if run != [] {
      TurnSettled(x.b, x.a, x.log, run[0], w);
      TurnFired(x.b, x.a, run[0], w);
      RunSettled(Turned(x, run[0], w), run[1..], w);
    }
  }

  lemma {:induction false} RecordedQueue(x: Record, run: seq<Act>, w: nat)
    requires w > 0
    ensures Recorded(x, run, w).b == RunBook(x.b, run, w) && Recorded(x, run, w).now == x.now + Clock(run)
    decreases run
  {
    if run != [] { RecordedQueue(Turned(x, run[0], w), run[1..], w); }
  }

  lemma {:induction false} RecordedLog(x: Record, run: seq<Act>, w: nat)
    requires w > 0
    ensures Recorded(x, run, w).log == x.log + Log(x.b, x.now, |x.times|, run, w)
    decreases run
  {
    if run == [] {
      assert x.log + [] == x.log;
    } else {
      var x', fired := Turned(x, run[0], w), Turn(x.b, run[0], w).1;
      RecordedLog(x', run[1..], w);
      Regroup(x.log, EnteredBy(x.now, |x.times|, run[0], |fired|), Log(x'.b, x'.now, |x'.times|, run[1..], w));
    }
  }

  lemma {:induction false} RecordedTimes(x: Record, run: seq<Act>, w: nat)
    requires w > 0
    ensures Recorded(x, run, w).times == x.times + Times(x.b, x.now, run, w)
    decreases run
  {
    if run == [] {
      assert x.times + [] == x.times;
    } else {
      var x', fired := Turned(x, run[0], w), Turn(x.b, run[0], w).1;
      RecordedTimes(x', run[1..], w);
      Regroup(x.times, Stamp(fired, x.now), Times(x'.b, x'.now, run[1..], w));
    }
  }

  /** The calls and the handler calls of a run from the beginning. */
  function LogOf(run: seq<Act>, w: nat): seq<Entry>
    requires w > 0
  {
    Log(EMPTY, 0, 0, run, w)
  }

  function TimesOf(run: seq<Act>, w: nat): seq<Fired>
    requires w > 0
  {
    Times(EMPTY, 0, run, w)
  }

  lemma FromEmpty(run: seq<Act>, w: nat) returns (a: Agenda)
    requires IsULong(w) && Legal(EMPTY, run, w)
    ensures Settled(RunBook(EMPTY, run, w), a, LogOf(run, w), w)
    ensures a.fired == TimesOf(run, w) && a.now == Clock(run)
  {
    var x := Record(EMPTY, NEW, [], [], 0);
    RunSettled(x, run, w);
    RecordedQueue(x, run, w);
    RecordedLog(x, run, w);
    RecordedTimes(x, run, w);
    assert [] + LogOf(run, w) == LogOf(run, w) && [] + TimesOf(run, w) == TimesOf(run, w);
    a := Recorded(x, run, w).a;
  }

  // ----- what was asked for is what is done

  /** Every handler call is made for a timeout that was asked for, with the handler and the
      argument given, within a second of the time asked for, and exactly then when ms * 1000
      fits in an unsigned long. */
  lemma CalledAsWished(run: seq<Act>, w: nat, m: nat)
    requires IsULong(w) && Legal(EMPTY, run, w) && m < |TimesOf(run, w)|
    ensures var f, ws := TimesOf(run, w)[m], Wishes(LogOf(run, w));
            && f.id < |ws|
            && var e := ws[f.id];
            && f.handler == e.cmd.handler && f.priv == e.cmd.priv
            && (e.cmd.ms < w ==>
                  && -SECOND < f.time - (e.time + e.cmd.ms * 1000) < SECOND
                  && (f.time == e.time + e.cmd.ms * 1000 <==> e.cmd.ms * 1000 < w))
  {
    var a := FromEmpty(run, w);
    var f, ws := TimesOf(run, w)[m], Wishes(LogOf(run, w));
    assert a.fired[m] == f && a.born[f.id] == BornOf(ws[f.id], w);
    if ws[f.id].cmd.ms < w {
      DelayWithinSecond(ws[f.id].cmd.ms, w);
      DelayExactIff(ws[f.id].cmd.ms, w);
    }
  }

  lemma UnstampJoin(x: seq<Fired>, y: seq<Fired>)
    ensures Unstamp(x + y) == Unstamp(x) + Unstamp(y)
  {
  }

  lemma {:induction false} TimesFirings(b: Book, now: int, run: seq<Act>, w: nat)
    requires w > 0
    ensures Unstamp(Times(b, now, run, w)) == RunFirings(b, run, w)
    decreases run
  {
    if run != [] {
      var (b1, fired) := Turn(b, run[0], w);
      TimesFirings(b1, now + Waited(run[0]), run[1..], w);
      UnstampJoin(Stamp(fired, now), Times(b1, now + Waited(run[0]), run[1..], w));
      UnstampStamp([], fired, now);
      assert [] + Stamp(fired, now) == Stamp(fired, now) && Unstamp([]) + fired == fired;
    }
  }

  /** The handlers called are those the code calls, each once, in the order of the times they
      were due and, among equal ones, of scheduling. */
  lemma CalledInOrder(run: seq<Act>, w: nat)
    requires IsULong(w) && Legal(EMPTY, run, w)
    ensures var fs := TimesOf(run, w);
            && Unstamp(fs) == RunFirings(EMPTY, run, w)
            && forall i, j :: 0 <= i < j < |fs| ==>
                 fs[i].id != fs[j].id && Precedes(fs[i].time, fs[i].id, fs[j].time, fs[j].id)
  {
    var a := FromEmpty(run, w);
    TimesFirings(EMPTY, 0, run, w);
    FiredOnce(a);
  }

  /** A timeout that is cancelled, by a program or by a handler, when it has been scheduled and
      its handler has not been called, never has it called. */
  lemma CancelledNever(run: seq<Act>, w: nat, p: nat)
    requires IsULong(w) && Legal(EMPTY, run, w) && p < |LogOf(run, w)| && LogOf(run, w)[p].cmd.Cancel?
    ensures var log, fs := LogOf(run, w), TimesOf(run, w);
            var id := log[p].cmd.id;
            && log[p].before <= |fs|
            && (id < |Wishes(log[..p])| && id !in FiredIds(fs[..log[p].before]) ==> id !in FiredIds(fs))
  {
    var a := FromEmpty(run, w);
    assert Heeded(a, LogOf(run, w), p);
  }

  /** Every timeout asked for has had its handler called, was cancelled by some call, or is in
      the queue and not overdue; and there are no others. */
  lemma NoneForgotten(run: seq<Act>, w: nat, id: nat)
    requires IsULong(w) && Legal(EMPTY, run, w)
    ensures RunBook(EMPTY, run, w).nextId == |Wishes(LogOf(run, w))|
    ensures id < |Wishes(LogOf(run, w))| ==>
              || id in FiredIds(TimesOf(run, w)) || Cancels(LogOf(run, w), id)
              || (IndexOf(RunBook(EMPTY, run, w).q, id) < |RunBook(EMPTY, run, w).q|
                  && BornOf(Wishes(LogOf(run, w))[id], w).at >= Clock(run))
  {
    var a := FromEmpty(run, w);
    var b := RunBook(EMPTY, run, w);
    if id in PendingIds(a.ds) {
      var i :| 0 <= i < |a.ds| && a.ds[i].id == id;
      AbsoluteIds(b.q, a.now, i);
      IndexFound(b.q, id, i);
    }
  }
}
