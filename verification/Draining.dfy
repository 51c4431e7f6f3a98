/** When handle_timeouts ends. Its handlers may schedule timeouts that are due at once, and
    then the loop can go on for ever: here handlers are any functions, and the loop is counted
    in rounds. */
module Draining {
  import opened Words
  import opened Timers
  import opened TimerRuns
  import opened Agenda
  import Timeliness

  /** The calls made by the i-th handler that is called. */
  type Handlers = nat -> seq<Cmd>

  /** The loop between two rounds: the cursor and the handler calls made so far. */
  datatype Loop = Loop(b: Book, cur: nat, fired: seq<Firing>)

  function Enter(b: Book): Loop { Loop(b, 0, []) }

  /** The loop is at the list head or at an entry that is not due. */
  predicate Ended(s: Loop) { s.cur >= |s.b.q| || s.b.q[s.cur].expires != ZERO }

  function Round(s: Loop, h: Handlers, w: nat): Loop
    requires w > 0
  {
    if Ended(s) then s
    else
      var t := s.b.q[s.cur];
      var b2 := AfterEntry(s.b, s.cur, [h(|s.fired|)], w);
      Loop(b2, Cursor(s.b, s.cur, b2), s.fired + if t.armed then [Firing(t.id, t.handler, t.priv)] else [])
  }

  function Rounds(s: Loop, h: Handlers, k: nat, w: nat): Loop
    requires w > 0
    decreases k
  {
    if k == 0 then s else Round(Rounds(s, h, k - 1, w), h, w)
  }

  lemma {:induction false} RoundsFront(s: Loop, h: Handlers, k: nat, w: nat)
    requires w > 0 && k > 0
    ensures Rounds(s, h, k, w) == Rounds(Round(s, h, w), h, k - 1, w)
    decreases k
  {
    if k > 1 { RoundsFront(s, h, k - 1, w); }
  }

  // ----- calls that end

  /** The whole course of a call that ends: one round after the other, until none is left. */
  ghost predicate Course(c: seq<Loop>, b: Book, h: Handlers, w: nat)
    requires w > 0
  {
    && c != [] && c[0] == Enter(b) && Ended(c[|c| - 1])
    && forall i :: 0 <= i < |c| - 1 ==> !Ended(c[i]) && c[i + 1] == Round(c[i], h, w)
  }

  lemma {:induction false} CourseRounds(c: seq<Loop>, b: Book, h: Handlers, w: nat, i: nat)
    requires w > 0 && Course(c, b, h, w) && i < |c|
    ensures c[i] == Rounds(Enter(b), h, i, w)
  {
    if i > 0 { CourseRounds(c, b, h, w, i - 1); }
  }

  lemma {:induction false} EndedBefore(s: Loop, h: Handlers, i: nat, k: nat, w: nat)
    requires w > 0 && i <= k && Ended(Rounds(s, h, i, w))
    ensures Rounds(s, h, k, w) == Rounds(s, h, i, w)
    decreases k
  {
    if i < k { EndedBefore(s, h, i, k - 1, w); }
  }

  lemma SameLength(c: seq<Loop>, c': seq<Loop>, b: Book, h: Handlers, w: nat)
    requires w > 0 && Course(c, b, h, w) && Course(c', b, h, w)
    requires |c| <= |c'| && forall i :: 0 <= i < |c| ==> c[i] == c'[i]
    ensures |c| == |c'|
  {
    assert Ended(c'[|c| - 1]);
  }

  lemma OneCourse(c: seq<Loop>, c': seq<Loop>, b: Book, h: Handlers, w: nat)
    requires w > 0 && Course(c, b, h, w) && Course(c', b, h, w)
    ensures c == c'
  {
    forall i | 0 <= i < |c| && i < |c'| ensures c[i] == c'[i] {
      CourseRounds(c, b, h, w, i);
      CourseRounds(c', b, h, w, i);
    }
    if |c| <= |c'| { SameLength(c, c', b, h, w); } else { SameLength(c', c, b, h, w); }
  }

  lemma NotBefore(s: Loop, h: Handlers, i: nat, k: nat, w: nat)
    requires w > 0 && i < k && !Ended(Rounds(s, h, k - 1, w))
    ensures !Ended(Rounds(s, h, i, w)) && Rounds(s, h, i + 1, w) == Round(Rounds(s, h, i, w), h, w)
  {
    if Ended(Rounds(s, h, i, w)) { EndedBefore(s, h, i, k - 1, w); }
  }

  /** The loop before each of the first k rounds, and after the last. */
  function Trace(b: Book, h: Handlers, k: nat, w: nat): (c: seq<Loop>)
    requires w > 0
    ensures |c| == k + 1 && c[0] == Enter(b) && forall i :: 0 <= i <= k ==> c[i] == Rounds(Enter(b), h, i, w)
  {
    seq(k + 1, i requires 0 <= i <= k => Rounds(Enter(b), h, i, w))
  }

  lemma TraceIsCourse(b: Book, h: Handlers, k: nat, w: nat)
    requires w > 0 && Ended(Rounds(Enter(b), h, k, w)) && (k > 0 ==> !Ended(Rounds(Enter(b), h, k - 1, w)))
    ensures Course(Trace(b, h, k, w), b, h, w)
  {
    var c := Trace(b, h, k, w);
    forall i | 0 <= i < k ensures !Ended(c[i]) && c[i + 1] == Round(c[i], h, w) {
      NotBefore(Enter(b), h, i, k, w);
    }
  }

  /** A loop that has ended after k rounds has a course, only one, and it leads there. */
  lemma {:induction false} CourseOf(b: Book, h: Handlers, k: nat, w: nat) returns (c: seq<Loop>)
    requires w > 0 && Ended(Rounds(Enter(b), h, k, w))
    ensures Course(c, b, h, w) && |c| <= k + 1 && c[|c| - 1] == Rounds(Enter(b), h, k, w)
    ensures forall c' :: Course(c', b, h, w) ==> c' == c
    decreases k
  {
    if k > 0 && Ended(Rounds(Enter(b), h, k - 1, w)) {
      c := CourseOf(b, h, k - 1, w);
    } else {
      c := Trace(b, h, k, w);
      TraceIsCourse(b, h, k, w);
      forall c' | Course(c', b, h, w) ensures c' == c { OneCourse(c', c, b, h, w); }
    }
  }

  /** The scripts list what the handlers do from the m-th on, for at least k of them. */
  ghost predicate Records(scripts: seq<seq<Cmd>>, h: Handlers, m: nat, k: nat) {
    k <= |scripts| && forall i :: 0 <= i < |scripts| ==> scripts[i] == h(m + i)
  }

  /** The calls made by the first k handlers. */
  function Scripts(h: Handlers, k: nat): (r: seq<seq<Cmd>>)
    ensures |r| == k && forall i :: 0 <= i < k ==> r[i] == h(i)
  {
    seq(k, i requires 0 <= i < k => h(i))
  }

  /** One round and one step of the drain. */
  lemma RoundIsStep(s: Loop, h: Handlers, k: nat, scripts: seq<seq<Cmd>>, w: nat)
    requires w > 0 && s.cur <= |s.b.q| && !Ended(s) && Records(scripts, h, |s.fired|, k) && k > 0
    ensures var t, s' := s.b.q[s.cur], Round(s, h, w);
            var rest := if t.armed then Rest(scripts) else scripts;
            var f := if t.armed then [Firing(t.id, t.handler, t.priv)] else [];
            && s'.fired == s.fired + f && s'.cur <= |s'.b.q| && Records(rest, h, |s'.fired|, k - 1)
            && DrainFrom(s.b, s.cur, scripts, w)
            == (DrainFrom(s'.b, s'.cur, rest, w).0, f + DrainFrom(s'.b, s'.cur, rest, w).1)
  {
    assert Script(scripts) == h(|s.fired|);
    assert Round(s, h, w).b == AfterEntry(s.b, s.cur, scripts, w);
  }

  /** The loop went from s to r as a drain that gave d. */
  predicate Matches(s: Loop, r: Loop, d: (Book, seq<Firing>)) { r.b == d.0 && r.fired == s.fired + d.1 }

  lemma MatchesStep(s: Loop, s': Loop, r: Loop, f: seq<Firing>, d: (Book, seq<Firing>))
    requires s'.fired == s.fired + f && Matches(s', r, d)
    ensures Matches(s, r, (d.0, f + d.1))
  {
    assert (s.fired + f) + d.1 == s.fired + (f + d.1);
  }

  lemma {:induction false} StaysEnded(s: Loop, h: Handlers, k: nat, w: nat)
    requires w > 0 && Ended(s)
    ensures Rounds(s, h, k, w) == s
    decreases k
  {
    if k > 0 { StaysEnded(s, h, k - 1, w); }
  }

  lemma EndedAtOnce(s: Loop, h: Handlers, k: nat, scripts: seq<seq<Cmd>>, w: nat)
    requires w > 0 && s.cur <= |s.b.q| && Ended(s)
    ensures Matches(s, Rounds(s, h, k, w), DrainFrom(s.b, s.cur, scripts, w))
  {
    StaysEnded(s, h, k, w);
    assert s.fired + [] == s.fired;
  }

  lemma EndedStep(s: Loop, h: Handlers, k: nat, scripts: seq<seq<Cmd>>, rest: seq<seq<Cmd>>, w: nat)
    requires w > 0 && s.cur <= |s.b.q| && !Ended(s) && k > 0 && Records(scripts, h, |s.fired|, k)
    requires rest == if s.b.q[s.cur].armed then Rest(scripts) else scripts
    requires var s' := Round(s, h, w);
             s'.cur <= |s'.b.q| && Matches(s', Rounds(s', h, k - 1, w), DrainFrom(s'.b, s'.cur, rest, w))
    ensures Matches(s, Rounds(s, h, k, w), DrainFrom(s.b, s.cur, scripts, w))
  {
    var t, s' := s.b.q[s.cur], Round(s, h, w);
    RoundsFront(s, h, k, w);
    RoundIsStep(s, h, k, scripts, w);
    MatchesStep(s, s', Rounds(s, h, k, w), if t.armed then [Firing(t.id, t.handler, t.priv)] else [],
                DrainFrom(s'.b, s'.cur, rest, w));
  }

  lemma NotYetEnded(s: Loop, h: Handlers, k: nat, w: nat)
    requires w > 0 && !Ended(s) && Ended(Rounds(s, h, k, w))
    ensures k > 0 && Ended(Rounds(Round(s, h, w), h, k - 1, w))
  {
    RoundsFront(s, h, k, w);
  }

  lemma {:induction false} EndedFrom(s: Loop, h: Handlers, k: nat, scripts: seq<seq<Cmd>>, w: nat)
    requires w > 0 && s.cur <= |s.b.q| && Records(scripts, h, |s.fired|, k) && Ended(Rounds(s, h, k, w))
    ensures Matches(s, Rounds(s, h, k, w), DrainFrom(s.b, s.cur, scripts, w))
    decreases k
  {
    if Ended(s) {
      EndedAtOnce(s, h, k, scripts, w);
    } else {
      var rest := if s.b.q[s.cur].armed then Rest(scripts) else scripts;
      NotYetEnded(s, h, k, w);
      RoundIsStep(s, h, k, scripts, w);
      EndedFrom(Round(s, h, w), h, k - 1, rest, w);
      EndedStep(s, h, k, scripts, rest, w);
    }
  }

  /** A call that ends is one of those with finitely many handler calls: draining with the
      calls recorded leaves the same queue and has called the same handlers. */
  lemma EndedIsDrain(b: Book, h: Handlers, k: nat, w: nat)
    requires w > 0 && Ended(Rounds(Enter(b), h, k, w))
    ensures var s := Rounds(Enter(b), h, k, w);
            (s.b, s.fired) == DrainFrom(b, 0, Scripts(h, k), w)
  {
    EndedFrom(Enter(b), h, k, Scripts(h, k), w);
    assert [] + DrainFrom(b, 0, Scripts(h, k), w).1 == DrainFrom(b, 0, Scripts(h, k), w).1;
  }

  // ----- how many entries are due

  /** The entries at the front that are due. */
  function Due(q: seq<Timer>): (n: nat)
    ensures n <= |q| && (n < |q| ==> q[n].expires != ZERO)
    ensures forall i :: 0 <= i < n ==> q[i].expires == ZERO
  {
    if q == [] || q[0].expires != ZERO then 0 else 1 + Due(q[1..])
  }

  function CountForNow(cs: seq<Cmd>): nat {
    if cs == [] then 0 else (if ForNow(cs[0]) then 1 else 0) + CountForNow(cs[1..])
  }

  lemma {:induction false} NoneIsZero(cs: seq<Cmd>)
    requires NoneForNow(cs)
    ensures CountForNow(cs) == 0
  {
    if cs != [] { NoneIsZero(cs[1..]); }
  }

  lemma SubZero(q: seq<Timer>, t: Timer)
    requires q != [] && AllNormal(q) && t.expires == ZERO
    ensures Less(ZERO, q[0].expires) <==> q[0].expires != ZERO
    ensures q[0].expires != ZERO ==> Insert(q, t) == [t] + q
    ensures q[0].expires == ZERO ==> Insert(q, t) == [q[0]] + Insert(q[1..], t)
  {
    TimeValArithmetic(ZERO, q[0].expires);
    assert Sub(q[0].expires, ZERO) == q[0].expires;
    assert t.(expires := ZERO) == t;
  }

  lemma DueCons(t: Timer, q: seq<Timer>)
    ensures Due([t] + q) == if t.expires == ZERO then 1 + Due(q) else 0
  {
    assert ([t] + q)[1..] == q;
  }

  lemma Behind(q: seq<Timer>, k: nat, t: Timer)
    requires q != [] && k < |q|
    ensures [q[0]] + (q[1..][..k] + [t] + q[1..][k..]) == q[..k + 1] + [t] + q[k + 1..]
  {
  }

  /** A timeout for now goes behind those already due. */
  lemma {:induction false} InsertNow(q: seq<Timer>, t: Timer)
    requires AllNormal(q) && t.expires == ZERO
    ensures Insert(q, t) == q[..Due(q)] + [t] + q[Due(q)..] && Due(Insert(q, t)) == Due(q) + 1
  {
    if q == [] {
      DueCons(t, []);
    } else {
      SubZero(q, t);
      if q[0].expires == ZERO {
        InsertNow(q[1..], t);
        DueCons(q[0], Insert(q[1..], t));
        Behind(q, Due(q[1..]), t);
      } else {
        DueCons(t, q);
      }
    }
  }

  lemma {:induction false} InsertLaterDue(q: seq<Timer>, t: Timer)
    requires AllNormal(q) && Normal(t.expires) && t.expires != ZERO
    ensures Due(Insert(q, t)) == Due(q)
  {
    if q != [] {
      TimeValArithmetic(ZERO, t.expires);
      TimeValArithmetic(t.expires, q[0].expires);
      if q[0].expires == ZERO {
        InsertLaterDue(q[1..], t);
        InsertBehind(q, t);
        assert Insert(q, t)[1..] == Insert(q[1..], t);
      }
    }
  }

  lemma {:induction false} DisarmDue(q: seq<Timer>, id: nat)
    ensures Due(Disarm(q, id)) == Due(q)
  {
    if q != [] {
      DisarmDue(q[1..], id);
      assert Disarm(q, id)[1..] == Disarm(q[1..], id);
    }
  }

  lemma CallDue(b: Book, c: Cmd, w: nat)
    requires IsULong(w) && AllNormal(b.q)
    ensures Due(Call(b, c, w).q) == Due(b.q) + if ForNow(c) then 1 else 0
  {
    match c
    case Schedule(ms, handler, priv) =>
      FromMsNormal(ms, w);
      TimeValArithmetic(FromMs(ms, w), ZERO);
      var t := Timer(b.nextId, FromMs(ms, w), handler, priv, true);
      if ms == 0 { InsertNow(b.q, t); } else { InsertLaterDue(b.q, t); }
    case Cancel(id) => DisarmDue(b.q, id);
  }

  lemma {:induction false} CallsDue(b: Book, cs: seq<Cmd>, w: nat)
    requires IsULong(w) && AllNormal(b.q)
    ensures Due(Calls(b, cs, w).q) == Due(b.q) + CountForNow(cs)
    decreases cs
  {
    if cs != [] {
      CallDue(b, cs[0], w);
      CallNormal(b, cs[0], w);
      CallsDue(Call(b, cs[0], w), cs[1..], w);
    }
  }

  // ----- rounds

  ghost predicate Sane(b: Book) { AllNormal(b.q) && IdsBelow(b) }

  /** A round takes one due entry away and adds those its handler schedules for now; the loop
      goes on, from the front, exactly when there was a second due entry before the handler
      ran. */
  lemma RoundDue(s: Loop, h: Handlers, w: nat)
    requires IsULong(w) && Sane(s.b) && s.cur == 0 && !Ended(s)
    ensures var s' := Round(s, h, w);
            && Sane(s'.b)
            && Due(s'.b.q) == Due(s.b.q) - 1 + (if s.b.q[0].armed then CountForNow(h(|s.fired|)) else 0)
            && (Ended(s') <==> Due(s.b.q) == 1) && (!Ended(s') ==> s'.cur == 0)
  {
    var b, script := s.b, [h(|s.fired|)];
    var b1 := b.(q := b.q[..0] + b.q[1..]);
    assert b1.q == b.q[1..];
    CursorIsSafe(b, script, w);
    IdsKept(b, script, w);
    CallsDue(b1, h(|s.fired|), w);
    assert Due(b.q) == 1 + Due(b.q[1..]);
  }

  /** A round on the first entry takes it away, calls its handler if it is armed, and leaves
      what the calls of that handler make of the rest. */
  lemma RoundCalls(s: Loop, h: Handlers, w: nat)
    requires w > 0 && s.cur == 0 && !Ended(s)
    ensures var t, rest, s' := s.b.q[0], s.b.(q := s.b.q[1..]), Round(s, h, w);
            if t.armed
            then s'.b == Calls(rest, h(|s.fired|), w) && s'.fired == s.fired + [Firing(t.id, t.handler, t.priv)]
            else s'.b == rest && s'.fired == s.fired
  {
    assert s.b.q[..0] + s.b.q[1..] == s.b.q[1..];
  }

  function SchedulingOf(h: Handlers, n: nat): nat {
    if n == 0 then 0 else SchedulingOf(h, n - 1) + Scheduling(h(n - 1))
  }

  lemma RoundCounts(s: Loop, h: Handlers, w: nat)
    requires w > 0 && !Ended(s)
    ensures var s', armed := Round(s, h, w), s.b.q[s.cur].armed;
            && s'.b.nextId == s.b.nextId + (if armed then Scheduling(h(|s.fired|)) else 0)
            && |s'.fired| == |s.fired| + if armed then 1 else 0
  {
    EntryCounts(s.b, s.cur, [h(|s.fired|)], w);
  }

  lemma RoundKeepsCount(s: Loop, h: Handlers, w: nat, n: nat)
    requires w > 0 && s.b.nextId == n + SchedulingOf(h, |s.fired|)
    ensures var s' := Round(s, h, w); s'.b.nextId == n + SchedulingOf(h, |s'.fired|)
  {
    if !Ended(s) { RoundCounts(s, h, w); }
  }

  /** After any number of rounds there are as many new timeouts as scheduling calls in the
      handlers called. */
  lemma {:induction false} RoundsCount(b: Book, h: Handlers, k: nat, w: nat)
    requires w > 0
    ensures var s := Rounds(Enter(b), h, k, w); s.b.nextId == b.nextId + SchedulingOf(h, |s.fired|)
    decreases k
  {
    if k > 0 {
      RoundsCount(b, h, k - 1, w);
      RoundKeepsCount(Rounds(Enter(b), h, k - 1, w), h, w, b.nextId);
    }
  }

  /** Of handlers that schedule nothing for now: each round leaves one due entry less, and the
      loop ends after exactly as many rounds as entries were due when it began. */
  lemma {:induction false} EndsInDue(b: Book, h: Handlers, w: nat, k: nat)
    requires IsULong(w) && Sane(b) && k <= Due(b.q)
    requires forall i: nat :: NoneForNow(h(i))
    ensures var s := Rounds(Enter(b), h, k, w);
            && Sane(s.b) && Due(s.b.q) == Due(b.q) - k
            && (Ended(s) <==> k == Due(b.q)) && (!Ended(s) ==> s.cur == 0)
    decreases k
  {
    if k > 0 {
      EndsInDue(b, h, w, k - 1);
      var s := Rounds(Enter(b), h, k - 1, w);
      RoundDue(s, h, w);
      NoneIsZero(h(|s.fired|));
    }
  }

  // ----- ending whatever the handlers do

  ghost predicate Ends(b: Book, h: Handlers, w: nat)
    requires w > 0
  {
    exists k: nat :: Ended(Rounds(Enter(b), h, k, w))
  }

  /** Among the due entries only the last has its handler called. */
  predicate OnlyLastArmed(q: seq<Timer>) { forall i :: 0 <= i < Due(q) - 1 ==> !q[i].armed }

  /** Handlers that schedule two timeouts for now each. */
  const Twice: Handlers := _ => [Schedule(0, 1, 0), Schedule(0, 1, 0)]

  /** An armed entry that is due with another due entry behind it. */
  ghost predicate ArmedBefore(q: seq<Timer>, i: nat) { i + 1 < Due(q) && q[i].armed }

  lemma TwiceNow(b: Book, w: nat) returns (i: nat)
    requires IsULong(w) && AllNormal(b.q)
    ensures ArmedBefore(Calls(b, [Schedule(0, 1, 0), Schedule(0, 1, 0)], w).q, i)
  {
    var c := Schedule(0, 1, 0);
    FromMsNormal(0, w);
    var b1 := Call(b, c, w);
    CallNormal(b, c, w);
    InsertNow(b.q, Timer(b.nextId, ZERO, 1, 0, true));
    InsertNow(b1.q, Timer(b1.nextId, ZERO, 1, 0, true));
    i := Due(b.q);
    assert b1.q[i].armed && Due(b1.q) == i + 1;
    var b2 := Call(b1, c, w);
    assert b2.q[i] == b1.q[i] && Due(b2.q) == i + 2;
    assert [c, c][1..] == [c] && [c][1..] == [];
    assert Calls(b, [c, c], w) == Calls(b1, [c], w) == b2;
  }

  lemma TwiceRound(s: Loop, w: nat, i: nat) returns (j: nat)
    requires IsULong(w) && Sane(s.b) && s.cur == 0 && ArmedBefore(s.b.q, i)
    ensures var s' := Round(s, Twice, w);
            Sane(s'.b) && s'.cur == 0 && ArmedBefore(s'.b.q, j)
  {
    RoundDue(s, Twice, w);
    var b := s.b;
    var b1 := b.(q := b.q[..0] + b.q[1..]);
    assert b1.q == b.q[1..] && Due(b.q) == 1 + Due(b.q[1..]);
    if b.q[0].armed {
      j := TwiceNow(b1, w);
    } else {
      j := i - 1;
    }
  }

  lemma {:induction false} NeverEnds(b: Book, w: nat, i: nat, k: nat) returns (j: nat)
    requires IsULong(w) && Sane(b) && ArmedBefore(b.q, i)
    ensures var s := Rounds(Enter(b), Twice, k, w);
            Sane(s.b) && s.cur == 0 && ArmedBefore(s.b.q, j) && !Ended(s)
    decreases k
  {
    if k == 0 {
      j := i;
    } else {
      var j0 := NeverEnds(b, w, i, k - 1);
      j := TwiceRound(Rounds(Enter(b), Twice, k - 1, w), w, j0);
    }
  }

  /** A round on a cancelled entry with another due entry behind it only takes it away. */
  lemma UnarmedRound(b: Book, h: Handlers, w: nat)
    requires IsULong(w) && Sane(b) && Due(b.q) > 1 && !b.q[0].armed
    ensures Round(Enter(b), h, w) == Enter(b.(q := b.q[1..]))
  {
    assert b.q[..0] + b.q[1..] == b.q[1..];
    RoundDue(Enter(b), h, w);
  }

  lemma {:induction false} EndsIfOnlyLast(b: Book, h: Handlers, w: nat)
    requires IsULong(w) && Sane(b) && OnlyLastArmed(b.q)
    ensures Ended(Rounds(Enter(b), h, Due(b.q), w))
    decreases |b.q|
  {
    if Due(b.q) == 1 {
      RoundDue(Enter(b), h, w);
    } else if Due(b.q) > 1 {
      var b' := b.(q := b.q[1..]);
      UnarmedRound(b, h, w);
      EndsIfOnlyLast(b', h, w);
      RoundsFront(Enter(b), h, Due(b.q), w);
    }
  }

  /** A call of handle_timeouts ends whatever its handlers do exactly when, of the entries due
      when it begins, at most the last is armed: of a queue without cancelled timeouts,
      exactly when at most one is due. */
  lemma EndsAlwaysIff(b: Book, w: nat)
    requires IsULong(w) && Sane(b)
    ensures (forall h: Handlers :: Ends(b, h, w)) <==> OnlyLastArmed(b.q)
    ensures (forall i :: 0 <= i < |b.q| ==> b.q[i].armed) ==>
              ((forall h: Handlers :: Ends(b, h, w)) <==> Due(b.q) <= 1)
  {
    if OnlyLastArmed(b.q) {
      forall h: Handlers ensures Ends(b, h, w) { EndsIfOnlyLast(b, h, w); }
    } else {
      var i: nat :| i < Due(b.q) - 1 && b.q[i].armed;
      forall k: nat ensures !Ended(Rounds(Enter(b), Twice, k, w)) { var j := NeverEnds(b, w, i, k); }
      assert !Ends(b, Twice, w);
    }
    if Due(b.q) > 1 && b.q[0].armed { assert !OnlyLastArmed(b.q); }
  }

  // ----- in a run

  lemma SaneInRun(run: seq<Timeliness.Act>, w: nat)
    requires IsULong(w) && Timeliness.Legal(Timeliness.EMPTY, run, w)
    ensures Sane(Timeliness.RunBook(Timeliness.EMPTY, run, w))
  {
    Timeliness.RunMatches(Timeliness.EMPTY, Timeliness.NEW, run, w);
    Timeliness.RelIds(Timeliness.RunBook(Timeliness.EMPTY, run, w), Timeliness.RunAgenda(Timeliness.NEW, run, w));
  }

  /** At any point of any run, a call whose handlers schedule nothing for now ends, and not
      before each due entry has had its round. */
  lemma EndsInRun(run: seq<Timeliness.Act>, h: Handlers, w: nat)
    requires IsULong(w) && Timeliness.Legal(Timeliness.EMPTY, run, w) && forall i: nat :: NoneForNow(h(i))
    ensures var b := Timeliness.RunBook(Timeliness.EMPTY, run, w);
            forall k: nat :: k <= Due(b.q) ==> (Ended(Rounds(Enter(b), h, k, w)) <==> k == Due(b.q))
  {
    var b := Timeliness.RunBook(Timeliness.EMPTY, run, w);
    SaneInRun(run, w);
    forall k: nat | k <= Due(b.q) ensures Ended(Rounds(Enter(b), h, k, w)) <==> k == Due(b.q) {
      EndsInDue(b, h, w, k);
    }
  }
}
