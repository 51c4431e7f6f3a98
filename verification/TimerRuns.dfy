/** Runs of the timer queue: scheduling, cancelling, waiting and draining, where the handlers
    called while draining schedule and cancel themselves. */
module TimerRuns {
  import opened Words
  import opened Timers

  /** Calls that programs and handlers make. Handler 0 is the null pointer. */
  datatype Cmd = Schedule(ms: nat, handler: nat, priv: nat) | Cancel(id: nat)

  /** A call that schedules a timeout which is due at once. */
  predicate ForNow(c: Cmd) { c.Schedule? && c.ms == 0 && c.handler != 0 }

  predicate NoneForNow(cs: seq<Cmd>) { forall i :: 0 <= i < |cs| ==> !ForNow(cs[i]) }

  /** The queue, and how many timeouts were ever scheduled; ids are given out in order. */
  datatype Book = Book(q: seq<Timer>, nextId: nat)

  /** A handler called for a timeout. */
  datatype Firing = Firing(id: nat, handler: nat, priv: nat)

  // ----- the code

  function Call(b: Book, c: Cmd, w: nat): Book
    requires w > 0
  {
    match c
    case Schedule(ms, handler, priv) =>
      if handler == 0 then b
      else Book(Insert(b.q, Timer(b.nextId, FromMs(ms, w), handler, priv, true)), b.nextId + 1)
    case Cancel(id) => b.(q := Disarm(b.q, id))
  }

  function Calls(b: Book, cs: seq<Cmd>, w: nat): Book
    requires w > 0
    decreases cs
  {
    if cs == [] then b else Calls(Call(b, cs[0], w), cs[1..], w)
  }

  /** Where the entry is linked, or the end when it is not. */
  function IndexOf(q: seq<Timer>, id: nat): (i: nat)
    ensures i <= |q| && (i < |q| ==> q[i].id == id)
  {
    if q == [] || q[0].id == id then 0 else 1 + IndexOf(q[1..], id)
  }

  lemma {:induction false} IndexFound(q: seq<Timer>, id: nat, k: nat)
    requires k < |q| && q[k].id == id
    ensures IndexOf(q, id) < |q|
  {
    if q[0].id != id { IndexFound(q[1..], id, k - 1); }
  }

  function CmdCount(scripts: seq<seq<Cmd>>): nat {
    if scripts == [] then 0 else |scripts[0]| + CmdCount(scripts[1..])
  }

  lemma {:induction false} InsertSize(q: seq<Timer>, t: Timer)
    ensures |Insert(q, t)| == |q| + 1
  {
    if q != [] && !Less(t.expires, q[0].expires) {
      InsertSize(q[1..], t.(expires := Sub(t.expires, q[0].expires)));
    }
  }

  lemma {:induction false} DisarmSize(q: seq<Timer>, id: nat)
    ensures |Disarm(q, id)| == |q|
  {
    if q != [] { DisarmSize(q[1..], id); }
  }

  lemma {:induction false} CallsSize(b: Book, cs: seq<Cmd>, w: nat)
    requires w > 0
    ensures |Calls(b, cs, w).q| <= |b.q| + |cs|
    decreases cs
  {
    if cs != [] {
      match cs[0] {
        case Schedule(ms, handler, priv) => InsertSize(b.q, Timer(b.nextId, FromMs(ms, w), handler, priv, true));
        case Cancel(id) => DisarmSize(b.q, id);
      }
      CallsSize(Call(b, cs[0], w), cs[1..], w);
    }
  }

  function Script(scripts: seq<seq<Cmd>>): seq<Cmd> { if scripts == [] then [] else scripts[0] }

  function Rest(scripts: seq<seq<Cmd>>): seq<seq<Cmd>> { if scripts == [] then [] else scripts[1..] }

  /** What is left when the entry at cur is unlinked and, if it is armed, its handler has
      made its calls. */
  function AfterEntry(b: Book, cur: nat, scripts: seq<seq<Cmd>>, w: nat): Book
    requires w > 0 && cur < |b.q|
  {
    var b1 := b.(q := b.q[..cur] + b.q[cur + 1..]);
    if b.q[cur].armed then Calls(b1, Script(scripts), w) else b1
  }

  /** Where the saved cursor points afterwards: at the entry that followed, wherever it is
      now, or at the list head. */
  function Cursor(b: Book, cur: nat, b2: Book): (i: nat)
    requires cur < |b.q|
    ensures i <= |b2.q|
  {
    if cur + 1 < |b.q| then IndexOf(b2.q, b.q[cur + 1].id) else |b2.q|
  }

  /** The loop of handle_timeouts with its cursor at cur, when it ends: the i-th handler called
      makes the calls scripts[i], later ones none. Draining.EndedIsDrain shows that every call
      that ends is of this form. */
  function DrainFrom(b: Book, cur: nat, scripts: seq<seq<Cmd>>, w: nat): (Book, seq<Firing>)
    requires w > 0 && cur <= |b.q|
    decreases |b.q| + CmdCount(scripts)
  {
    if cur == |b.q| || b.q[cur].expires != ZERO then (b, [])
    else
      var t := b.q[cur];
      var b2 := AfterEntry(b, cur, scripts, w);
      CallsSize(b.(q := b.q[..cur] + b.q[cur + 1..]), Script(scripts), w);
      var (b3, fired) := DrainFrom(b2, Cursor(b, cur, b2), if t.armed then Rest(scripts) else scripts, w);
      (b3, (if t.armed then [Firing(t.id, t.handler, t.priv)] else []) + fired)
  }

  // ----- what the handlers' calls leave behind

  /** The calls that schedule a timeout. */
  function Scheduling(cs: seq<Cmd>): nat {
    if cs == [] then 0 else (if cs[0].Schedule? && cs[0].handler != 0 then 1 else 0) + Scheduling(cs[1..])
  }

  /** Those in the scripts of the first n handlers called. */
  function SchedulingIn(scripts: seq<seq<Cmd>>, n: nat): nat {
    if n == 0 || scripts == [] then 0 else Scheduling(scripts[0]) + SchedulingIn(scripts[1..], n - 1)
  }

  lemma {:induction false} CallsCount(b: Book, cs: seq<Cmd>, w: nat)
    requires w > 0
    ensures Calls(b, cs, w).nextId == b.nextId + Scheduling(cs)
    decreases cs
  {
    if cs != [] { CallsCount(Call(b, cs[0], w), cs[1..], w); }
  }

  lemma EntryCounts(b: Book, cur: nat, scripts: seq<seq<Cmd>>, w: nat)
    requires w > 0 && cur < |b.q|
    ensures AfterEntry(b, cur, scripts, w).nextId
         == b.nextId + if b.q[cur].armed && scripts != [] then Scheduling(scripts[0]) else 0
  {
    CallsCount(b.(q := b.q[..cur] + b.q[cur + 1..]), Script(scripts), w);
  }

  /** One round of the loop. */
  lemma DrainRound(b: Book, cur: nat, scripts: seq<seq<Cmd>>, w: nat)
    requires w > 0 && cur < |b.q| && b.q[cur].expires == ZERO
    ensures var b2 := AfterEntry(b, cur, scripts, w);
            var rest := if b.q[cur].armed then Rest(scripts) else scripts;
            var r, r' := DrainFrom(b, cur, scripts, w), DrainFrom(b2, Cursor(b, cur, b2), rest, w);
            && |b2.q| + CmdCount(rest) < |b.q| + CmdCount(scripts)
            && r.0 == r'.0 && |r.1| == |r'.1| + if b.q[cur].armed then 1 else 0
  {
    CallsSize(b.(q := b.q[..cur] + b.q[cur + 1..]), Script(scripts), w);
  }

  /** Over a call of handle_timeouts every scheduling call of every handler that is called
      makes a timeout. */
  lemma {:induction false} DrainCounts(b: Book, cur: nat, scripts: seq<seq<Cmd>>, w: nat)
    requires w > 0 && cur <= |b.q|
    ensures var (b', fired) := DrainFrom(b, cur, scripts, w);
            b'.nextId == b.nextId + SchedulingIn(scripts, |fired|)
    decreases |b.q| + CmdCount(scripts)
  {
    if cur < |b.q| && b.q[cur].expires == ZERO {
      var b2 := AfterEntry(b, cur, scripts, w);
      DrainRound(b, cur, scripts, w);
      EntryCounts(b, cur, scripts, w);
      DrainCounts(b2, Cursor(b, cur, b2), if b.q[cur].armed then Rest(scripts) else scripts, w);
    }
  }

  // ----- what the saved cursor can point at

  /** The entry is linked and not due on its own distance. */
  predicate Undue(q: seq<Timer>, id: nat) {
    IndexOf(q, id) < |q| && q[IndexOf(q, id)].expires != ZERO
  }

  /** Scheduling takes less than its distance off the entry behind: it never looks due. */
  lemma {:induction false} InsertUndue(q: seq<Timer>, t: Timer, id: nat)
    requires AllNormal(q) && Normal(t.expires) && t.id != id && Undue(q, id)
    ensures Undue(Insert(q, t), id)
  {
    if Less(t.expires, q[0].expires) {
      TimeValArithmetic(t.expires, q[0].expires);
      TimeValArithmetic(q[0].expires, t.expires);
      InsertFront(q, t, 0);
      var r := Insert(q, t);
      assert r[1..] == [q[0].(expires := Sub(q[0].expires, t.expires))] + q[1..] && r[1..][1..] == q[1..];
      assert Sub(q[0].expires, t.expires) != ZERO by { assert Usec(Sub(q[0].expires, t.expires)) > 0; }
    } else if q[0].id != id {
      InsertBehind(q, t);
      InsertUndue(q[1..], t.(expires := Sub(t.expires, q[0].expires)), id);
      assert Insert(q, t)[1..] == Insert(q[1..], t.(expires := Sub(t.expires, q[0].expires)));
    }
  }

  lemma {:induction false} DisarmUndue(q: seq<Timer>, id: nat, x: nat)
    requires Undue(q, id)
    ensures Undue(Disarm(q, x), id)
  {
    if q[0].id != id {
      DisarmUndue(q[1..], id, x);
      assert Disarm(q, x)[1..] == Disarm(q[1..], x);
    }
  }

  /** A due entry at the front stays there: what is scheduled meanwhile goes behind it. */
  lemma CallKeepsDueHead(b: Book, c: Cmd, w: nat)
    requires IsULong(w) && b.q != [] && b.q[0].expires == ZERO && AllNormal(b.q)
    ensures var q' := Call(b, c, w).q;
            q' != [] && q'[0].expires == ZERO && q'[0].id == b.q[0].id
  {
    if c.Schedule? {
      FromMsNormal(c.ms, w);
      TimeValArithmetic(FromMs(c.ms, w), ZERO);
    }
  }

  lemma {:induction false} DisarmNormal(q: seq<Timer>, id: nat)
    requires AllNormal(q)
    ensures AllNormal(Disarm(q, id))
  {
    if q != [] { DisarmNormal(q[1..], id); }
  }

  lemma CallNormal(b: Book, c: Cmd, w: nat)
    requires IsULong(w) && AllNormal(b.q)
    ensures AllNormal(Call(b, c, w).q)
  {
    match c
    case Schedule(ms, handler, priv) =>
      FromMsNormal(ms, w);
      InsertNormal(b.q, Timer(b.nextId, FromMs(ms, w), handler, priv, true));
    case Cancel(id) => DisarmNormal(b.q, id);
  }

  lemma CallKeepsUndue(b: Book, c: Cmd, w: nat, id: nat)
    requires IsULong(w) && AllNormal(b.q) && Undue(b.q, id) && id < b.nextId
    ensures Undue(Call(b, c, w).q, id) && id < Call(b, c, w).nextId
  {
    match c
    case Schedule(ms, handler, priv) =>
      FromMsNormal(ms, w);
      InsertUndue(b.q, Timer(b.nextId, FromMs(ms, w), handler, priv, true), id);
    case Cancel(x) => DisarmUndue(b.q, id, x);
  }

  lemma {:induction false} CallsKeepId(b: Book, cs: seq<Cmd>, w: nat, id: nat)
    requires IsULong(w) && AllNormal(b.q) && b.q != [] && id < b.nextId
    ensures var b' := Calls(b, cs, w);
            && AllNormal(b'.q)
            && (b.q[0].id == id && b.q[0].expires == ZERO ==>
                  IndexOf(b'.q, id) == 0 && b'.q != [] && b'.q[0].expires == ZERO)
            && (Undue(b.q, id) ==> Undue(b'.q, id))
    decreases cs
  {
    if cs != [] {
      CallNormal(b, cs[0], w);
      if Undue(b.q, id) { CallKeepsUndue(b, cs[0], w, id); }
      if b.q[0].expires == ZERO { CallKeepsDueHead(b, cs[0], w); }
      match cs[0] {
        case Schedule(ms, handler, priv) => InsertSize(b.q, Timer(b.nextId, FromMs(ms, w), handler, priv, true));
        case Cancel(x) => DisarmSize(b.q, x);
      }
      CallsKeepId(Call(b, cs[0], w), cs[1..], w, id);
    }
  }

  lemma {:induction false} CallsKeep(b: Book, cs: seq<Cmd>, w: nat)
    requires IsULong(w) && AllNormal(b.q) && b.q != [] && b.q[0].id < b.nextId
    ensures var b' := Calls(b, cs, w);
            && AllNormal(b'.q)
            && (b.q[0].expires == ZERO ==> IndexOf(b'.q, b.q[0].id) == 0 && b'.q != [] && b'.q[0].expires == ZERO)
            && (b.q[0].expires != ZERO ==> Undue(b'.q, b.q[0].id))
    decreases cs
  {
    CallsKeepId(b, cs, w, b.q[0].id);
  }

  lemma {:induction false} CallsNormal(b: Book, cs: seq<Cmd>, w: nat)
    requires IsULong(w) && AllNormal(b.q)
    ensures AllNormal(Calls(b, cs, w).q)
    decreases cs
  {
    if cs != [] {
      CallNormal(b, cs[0], w);
      CallsNormal(Call(b, cs[0], w), cs[1..], w);
    }
  }

  /** The saved cursor, after the handler of the first entry has run: if the entry behind was
      due it is at the front; if it was not, it is linked and still not due; if there was
      none, the cursor is the list head. */
  lemma CursorIsSafe(b: Book, scripts: seq<seq<Cmd>>, w: nat)
    requires IsULong(w) && AllNormal(b.q) && b.q != []
    requires |b.q| > 1 ==> b.q[1].id < b.nextId
    ensures var b2 := AfterEntry(b, 0, scripts, w);
            var i := Cursor(b, 0, b2);
            && AllNormal(b2.q)
            && (|b.q| > 1 && b.q[1].expires == ZERO ==> i == 0 && b2.q != [] && b2.q[0].expires == ZERO)
            && (|b.q| > 1 && b.q[1].expires != ZERO ==> i < |b2.q| && b2.q[i].expires != ZERO)
            && (|b.q| == 1 ==> i == |b2.q|)
  {
    var b1 := b.(q := b.q[..0] + b.q[1..]);
    assert b1.q == b.q[1..];
    if |b.q| > 1 {
      CallsKeep(b1, Script(scripts), w);
    } else {
      CallsNormal(b1, Script(scripts), w);
    }
  }
}
