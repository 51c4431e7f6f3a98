/** util/timeout.c on the list of include/list.h: one list of timeouts, changed in place. */
module Timeouts {
  import opened Words
  import opened Timers
  import opened TimerRuns
  import opened ListHead
  import opened Draining

  ghost predicate Joins<A>(s: seq<A>, t: seq<A>, x: A) {
    exists k :: 0 <= k <= |s| && t == s[..k] + [x] + s[k..]
  }

  lemma JoinsAt<A>(s: seq<A>, k: nat, x: A)
    requires k <= |s|
    ensures Joins(s, s[..k] + [x] + s[k..], x)
  {
  }

  lemma Halves<A>(s: seq<A>, a: seq<A>, b: seq<A>, k: nat)
    requires s == a + b && |a| == k
    ensures s[..k] == a && s[k..] == b
  {
  }

  ghost function Entries(items: seq<ListHead<Timer>>): (q: seq<Timer>)
    reads items`entry
    ensures |q| == |items| && forall i :: 0 <= i < |items| ==> q[i] == items[i].entry
  {
    if items == [] then [] else [items[0].entry] + Entries(items[1..])
  }

  lemma {:induction false} EntriesPlus(a: seq<ListHead<Timer>>, b: seq<ListHead<Timer>>)
    ensures Entries(a + b) == Entries(a) + Entries(b)
  {
  }

  lemma {:induction false} EntriesJoin(items: seq<ListHead<Timer>>, k: nat, to: ListHead<Timer>)
    requires k <= |items|
    ensures Entries(items[..k] + [to] + items[k..]) == Entries(items)[..k] + [to.entry] + Entries(items)[k..]
  {
    var a, b := items[..k], items[k..];
    assert items == a + b;
    EntriesPlus(a, b);
    EntriesPlus(a + [to], b);
    EntriesPlus(a, [to]);
    Halves(Entries(items), Entries(a), Entries(b), k);
  }

  lemma Without<A>(s: seq<A>, a: seq<A>, x: seq<A>, b: seq<A>, k: nat)
    requires s == (a + x) + b && |a| == k && |x| == 1
    ensures s[..k] == a && s[k + 1..] == b
  {
  }

  lemma {:induction false} EntriesWithout(items: seq<ListHead<Timer>>, k: nat)
    requires k < |items|
    ensures Entries(items[..k] + items[k + 1..]) == Entries(items)[..k] + Entries(items)[k + 1..]
  {
    var a, b := items[..k], items[k + 1..];
    assert items == (a + [items[k]]) + b;
    EntriesPlus(a, b);
    EntriesPlus(a + [items[k]], b);
    EntriesPlus(a, [items[k]]);
    Without(Entries(items), Entries(a), Entries([items[k]]), Entries(b), k);
  }

  lemma StillIn<A>(s: seq<A>, k: nat, h: seq<A>)
    requires k < |s| && forall i :: 0 <= i < |s| ==> s[i] in h
    ensures var r := s[..k] + s[k + 1..]; forall i :: 0 <= i < |r| ==> r[i] in h
  {
    var r := s[..k] + s[k + 1..];
    forall i | 0 <= i < |r| ensures r[i] in h {
      assert r[i] == s[if i < k then i else i + 1];
    }
  }

  lemma {:induction false} DisarmEach(q: seq<Timer>, id: nat)
    ensures |Disarm(q, id)| == |q|
    ensures forall i :: 0 <= i < |q| ==> Disarm(q, id)[i] == if q[i].id == id then q[i].(armed := false) else q[i]
  {
    if q != [] { DisarmEach(q[1..], id); }
  }

  lemma JoinsMembers<A>(s: seq<A>, t: seq<A>, x: A)
    requires Joins(s, t, x)
    ensures forall i :: 0 <= i < |t| ==> t[i] == x || t[i] in s
    ensures forall y :: y in s ==> y in t
    ensures x in t
  {
    var k :| 0 <= k <= |s| && t == s[..k] + [x] + s[k..];
    assert s == s[..k] + s[k..] && t[k] == x;
    forall y | y in s ensures y in t {
      var i :| 0 <= i < |s| && s[i] == y;
      assert t[if i < k then i else i + 1] == y;
    }
  }

  lemma Distinct<T>(head: ListHead<T>, items: seq<ListHead<T>>)
    requires Ring([head] + items)
    ensures NoDup(items)
  {
    NoDupPart([head], items);
  }

  lemma HeadFirst<T>(head: ListHead<T>, items: seq<ListHead<T>>)
    requires Ring([head] + items)
    ensures head.next == if items == [] then head else items[0]
  {
    var s := [head] + items;
    assert s[0] == head && (items != [] ==> s[1] == items[0]);
  }

  /** The loop meets the head again only behind the last entry. */
  lemma HeadOnce<T>(head: ListHead<T>, items: seq<ListHead<T>>, k: nat)
    requires Ring([head] + items) && k < |items|
    ensures items[k] != head && items[k].next == if k + 1 < |items| then items[k + 1] else head
  {
    var s := [head] + items;
    assert s[0] == head && s[k + 1] == items[k];
    assert k + 1 < |items| ==> s[k + 2] == items[k + 1];
  }

  lemma InsertHere(q: seq<Timer>, k: nat, t: Timer)
    requires k < |q| && Less(t.expires, q[k].expires)
    ensures var q' := q[k := q[k].(expires := Sub(q[k].expires, t.expires))];
            q[..k] + Insert(q[k..], t) == q'[..k] + [t] + q'[k..]
  {
    assert q[k..][1..] == q[k + 1..];
    var q' := q[k := q[k].(expires := Sub(q[k].expires, t.expires))];
    assert q'[..k] == q[..k] && q'[k..] == [q'[k]] + q[k + 1..];
  }

  lemma InsertEnd(q: seq<Timer>, t: Timer)
    ensures q[..|q|] + Insert(q[|q|..], t) == q[..|q|] + [t] + q[|q|..]
  {
    assert q[|q|..] == [];
  }

  lemma InsertFurther(q: seq<Timer>, k: nat, t: Timer)
    requires k < |q| && !Less(t.expires, q[k].expires)
    ensures q[..k] + Insert(q[k..], t)
         == q[..k + 1] + Insert(q[k + 1..], t.(expires := Sub(t.expires, q[k].expires)))
  {
    assert q[k..][1..] == q[k + 1..];
  }

  class Timeouts {
    /** The list head; its own entry means nothing. */
    const head: ListHead<Timer>
    /** How far unsigned long counts. */
    const w: nat
    /** The pointers that schedule_timeout has returned, in order; a timeout's id is its
        place among them. */
    var handles: seq<ListHead<Timer>>
    /** The entries in list order. */
    ghost var items: seq<ListHead<Timer>>

    /** The list is a ring of timeouts that were handed out. */
    ghost predicate Valid()
      reads this, head`next, head`prev, items`next, items`prev, handles`entry
    {
      && IsULong(w) && Ring([head] + items) && head !in handles
      && (forall id :: 0 <= id < |handles| ==> handles[id].entry.id == id)
      && (forall i :: 0 <= i < |items| ==> items[i] in handles)
    }

    /** The entries as values. */
    ghost function Queue(): (q: seq<Timer>)
      reads this, items`entry
      ensures |q| == |items|
    {
      Entries(items)
    }

    ghost function State(): Book
      reads this, items`entry
    {
      Book(Queue(), |handles|)
    }

    /** Handles are only ever added, for new timeouts. */
    twostate predicate Grows()
      reads this
    {
      old(handles) <= handles && forall i :: 0 <= i < |handles| ==> handles[i] in old(handles) || fresh(handles[i])
    }

    /** timeouts_init. */
    constructor (w: nat, dummy: Timer)
      requires IsULong(w)
      ensures Valid() && State() == Book([], 0) && fresh(head) && this.w == w && handles == []
    {
      head := new ListHead(dummy);
      this.w := w;
      handles := [];
      items := [];
      new;
      assert [head] + items == [head];
    }

    method LinkIn(to: ListHead<Timer>, ptr: ListHead<Timer>, ghost k: nat)
      requires Ring([head] + items) && k <= |items| && to !in [head] + items
      requires ptr == if k < |items| then items[k] else head
      modifies `items, head`next, head`prev, items`next, items`prev, to`next, to`prev
      ensures items == old(items[..k] + [to] + items[k..]) && Ring([head] + items)
    {
      ghost var a, b := [head] + items[..k], items[k..];
      assert a + b == [head] + items;
      AddTail(to, ptr, a, b);
      items := items[..k] + [to] + items[k..];
      assert a + [to] + b == [head] + items;
    }

    /** list_add_tail of a new entry before the one at k, or at the end. */
    method Place(to: ListHead<Timer>, ptr: ListHead<Timer>, ghost k: nat)
      requires Ring([head] + items) && k <= |items| && to !in [head] + items
      requires ptr == if k < |items| then items[k] else head
      modifies `items, head`next, head`prev, items`next, items`prev, to`next, to`prev
      ensures Joins(old(items), items, to) && Ring([head] + items)
      ensures Queue() == old(Queue()[..k] + [to.entry] + Queue()[k..])
    {
      ghost var was := items;
      LinkIn(to, ptr, k);
      EntriesJoin(was, k, to);
      JoinsAt(was, k, to);
    }

    /** The new entry goes before ptr, which counts from it from now on. */
    method GoBefore(to: ListHead<Timer>, ptr: ListHead<Timer>, ghost k: nat)
      requires Ring([head] + items) && to !in [head] + items && k < |items| && ptr == items[k]
      requires Less(to.entry.expires, ptr.entry.expires)
      modifies `items, head`next, head`prev, items, to`next, to`prev
      ensures forall i :: 0 <= i < |old(items)| ==> old(items)[i].entry.id == old(Queue())[i].id
      ensures Ring([head] + items) && Joins(old(items), items, to)
      ensures Queue() == old(Queue()[..k] + Insert(Queue()[k..], to.entry)) && to.entry == old(to.entry)
    {
      ghost var q := Queue();
      InsertHere(q, k, to.entry);
      ptr.entry := ptr.entry.(expires := Sub(ptr.entry.expires, to.entry.expires));
      assert Queue() == q[k := q[k].(expires := Sub(q[k].expires, to.entry.expires))] by {
        Distinct(head, items);
      }
      Place(to, ptr, k);
    }

    /** The walk down a list that is not empty: finds the place of the new entry, taking the
        distances it passes off its own and its own off the one it goes before. */
    method InsertWalk(to: ListHead<Timer>)
      requires Ring([head] + items) && to !in [head] + items && items != []
      modifies `items, head`next, head`prev, items, to
      ensures Ring([head] + items) && Queue() == Insert(old(Queue()), old(to.entry))
      ensures to.entry.id == old(to.entry.id) && Joins(old(items), items, to)
      ensures forall i :: 0 <= i < |old(items)| ==> old(items)[i].entry.id == old(Queue())[i].id
    {
      ghost var q, t := Queue(), to.entry;
      var ptr := head.next;
      ghost var k := 0;
      HeadFirst(head, items);
      while ptr != head
        invariant 0 <= k <= |items| && ptr == if k < |items| then items[k] else head
        invariant Ring([head] + items) && to !in [head] + items && items == old(items)
        invariant Queue() == q && to.entry.id == t.id
        invariant Insert(q, t) == q[..k] + Insert(q[k..], to.entry)
        decreases |items| - k
      {
        HeadOnce(head, items, k);
        if Less(to.entry.expires, ptr.entry.expires) {
          GoBefore(to, ptr, k);
          return;
        }
        InsertFurther(q, k, to.entry);
        to.entry := to.entry.(expires := Sub(to.entry.expires, ptr.entry.expires));
        ptr := ptr.next;
        k := k + 1;
      }
      if k < |items| { HeadOnce(head, items, k); }
      InsertEnd(q, to.entry);
      Place(to, ptr, |items|);
    }

    /** The rest of schedule_timeout: an empty list takes the entry as it is. */
    method InsertEntry(to: ListHead<Timer>)
      requires Ring([head] + items) && to !in [head] + items
      modifies `items, head`next, head`prev, items, to
      ensures Ring([head] + items) && Queue() == Insert(old(Queue()), old(to.entry))
      ensures to.entry.id == old(to.entry.id) && Joins(old(items), items, to)
      ensures forall i :: 0 <= i < |old(items)| ==> old(items)[i].entry.id == old(Queue())[i].id
    {
      var empty := Empty(head, items);
      if empty {
        InsertEnd(Queue(), to.entry);
        Place(to, head, |items|);
        return;
      }
      InsertWalk(to);
    }

    /** A new timeout is put in the list and given out. */
    method Enqueue(to: ListHead<Timer>)
      requires Valid() && to !in [head] + items && to !in handles && to.entry.id == |handles|
      modifies this, head`next, head`prev, items, to
      ensures Valid() && handles == old(handles) + [to] && Joins(old(items), items, to)
      ensures State() == Book(Insert(old(Queue()), old(to.entry)), old(|handles|) + 1)
    {
      ghost var q := Queue();
      InsertEntry(to);
      forall id | 0 <= id < |handles| ensures handles[id].entry.id == id {
        if i: nat :| i < |old(items)| && old(items)[i] == handles[id] {
          assert q[i].id == id;
        }
      }
      handles := handles + [to];
      JoinsMembers(old(items), items, to);
    }

    /** schedule_timeout. Without a handler it returns null and does nothing. */
    method Schedule(ms: nat, handler: nat, priv: nat) returns (to: ListHead?<Timer>)
      requires Valid()
      modifies this, head`next, head`prev, handles
      ensures Valid() && Grows()
      ensures State() == Call(old(State()), Cmd.Schedule(ms, handler, priv), w)
      ensures handler == 0 ==> to == null && items == old(items)
      ensures handler != 0 ==> to != null && handles == old(handles) + [to] && Joins(old(items), items, to)
    {
      if handler == 0 {
        return null;
      }
      to := new ListHead(Timer(|handles|, FromMs(ms, w), handler, priv, true));
      Enqueue(to);
    }

    /** cancel_timeout. */
    method Cancel(to: ListHead<Timer>)
      requires Valid() && to in handles
      modifies to`entry
      ensures Valid() && State() == Call(old(State()), Cmd.Cancel(to.entry.id), w)
    {
      ghost var q := Queue();
      IdNames(this, to);
      to.entry := to.entry.(armed := false);
      DisarmEach(q, to.entry.id);
    }

    /** get_next_timeout: the entry whose expires field select counts down in place, or null. */
    method NextTimeout() returns (to: ListHead?<Timer>)
      requires Valid()
      ensures if items == [] then to == null else to == items[0] && to.entry == Queue()[0]
    {
      HeadFirst(head, items);
      var empty := Empty(head, items);
      if empty {
        return null;
      }
      return head.next;
    }

    /** What select does with the result of get_next_timeout when it has waited for t. */
    method Wait(t: TimeVal)
      requires Valid()
      modifies items`entry
      ensures Valid() && State() == old(State()).(q := Elapse(old(Queue()), t))
    {
      var to := NextTimeout();
      ghost var q := Queue();
      if to != null {
        Distinct(head, items);
        to.entry := to.entry.(expires := Sub(to.entry.expires, t));
        assert Queue() == q[0 := q[0].(expires := Sub(q[0].expires, t))];
      }
    }

    /** One call made by a handler. A handle that was never given out names nothing. */
    method RunCmd(c: Cmd)
      requires Valid()
      modifies this, head`next, head`prev, handles
      ensures Valid() && Grows()
      ensures State() == Call(old(State()), c, w)
      ensures forall x :: x in old(items) ==> x in items
    {
      match c
      case Schedule(ms, handler, priv) =>
        var to := Schedule(ms, handler, priv);
        if handler != 0 { JoinsMembers(old(items), items, to); }
      case Cancel(id) =>
        if id < |handles| {
          Cancel(handles[id]);
        } else {
          NoSuchId(this, id);
        }
    }

    /** The calls of one handler. */
    method RunScript(cmds: seq<Cmd>)
      requires Valid()
      modifies this, head`next, head`prev, handles
      ensures Valid() && Grows()
      ensures State() == Calls(old(State()), cmds, w)
      ensures forall x :: x in old(items) ==> x in items
    {
      var i := 0;
      while i < |cmds|
        invariant 0 <= i <= |cmds| && Valid() && Grows()
        invariant Calls(State(), cmds[i..], w) == Calls(old(State()), cmds, w)
        invariant forall x :: x in old(items) ==> x in items
      {
        RunCmd(cmds[i]);
        assert cmds[i..][1..] == cmds[i + 1..];
        i := i + 1;
      }
    }

    method Unlink(to: ListHead<Timer>, ghost cur: nat)
      requires Valid() && cur < |items| && to == items[cur]
      modifies `items, head`next, head`prev, items`next, items`prev
      ensures Valid() && items == old(items[..cur] + items[cur + 1..])
    {
      ghost var a, b, was := [head] + items[..cur], items[cur + 1..], items;
      assert a + [to] + b == [head] + items;
      DelInit(to, a, b);
      items := items[..cur] + items[cur + 1..];
      assert a + b == [head] + items;
      StillIn(was, cur, handles);
    }

    /** list_del_init of the entry at cur. */
    method Unqueue(to: ListHead<Timer>, ghost cur: nat)
      requires Valid() && cur < |items| && to == items[cur]
      modifies `items, head`next, head`prev, items`next, items`prev
      ensures Valid() && items == old(items[..cur] + items[cur + 1..])
      ensures Queue() == old(Queue()[..cur] + Queue()[cur + 1..])
    {
      EntriesWithout(items, cur);
      Unlink(to, cur);
    }

    /** One round of handle_timeouts for an entry that is due. */
    method RunEntry(to: ListHead<Timer>, ghost cur: nat, script: seq<Cmd>) returns (fired: seq<Firing>)
      requires Valid() && cur < |items| && to == items[cur]
      modifies this, head`next, head`prev, handles
      ensures Valid() && Grows()
      ensures var rest := old(Book(Queue()[..cur] + Queue()[cur + 1..], |handles|));
              State() == if old(to.entry.armed) then Calls(rest, script, w) else rest
      ensures forall x :: x in old(items) && x != to ==> x in items
      ensures var t := old(to.entry); fired == if t.armed then [Firing(t.id, t.handler, t.priv)] else []
    {
      ghost var was := items;
      Unqueue(to, cur);
      forall x | x in was && x != to ensures x in items {
        var i :| 0 <= i < |was| && was[i] == x;
        assert items[if i < cur then i else i - 1] == x;
      }
      if to.entry.armed {
        fired := [Firing(to.entry.id, to.entry.handler, to.entry.priv)];
        RunScript(script);
      } else {
        fired := [];
      }
    }

    /** The same with the cursor saved before: afterwards it is where the code of the queue
        says it is. */
    method RunSaved(to: ListHead<Timer>, tmp: ListHead?<Timer>, ghost cur: nat, script: seq<Cmd>)
      returns (fired: seq<Firing>, ghost next: nat)
      requires Valid() && cur < |items| && to == items[cur] && tmp == to.next
      modifies this, head`next, head`prev, handles
      ensures Valid() && Grows() && tmp != null
      ensures State() == old(AfterEntry(State(), cur, [script], w))
      ensures next == Cursor(old(State()), cur, State()) <= |items|
      ensures if next < |items| then tmp == items[next] != head else tmp == head
      ensures var t := old(to.entry); fired == if t.armed then [Firing(t.id, t.handler, t.priv)] else []
    {
      ghost var b := State();
      HeadOnce(head, items, cur);
      ghost var following := if cur + 1 < |items| then Some(items[cur + 1]) else None;
      ghost var hs := handles;
      Distinct(head, items);
      fired := RunEntry(to, cur, script);
      next := Cursor(b, cur, State());
      if following.Some? {
        SameId(this, hs, following.value, b.q[cur + 1].id);
        Found(this, following.value);
        HeadOnce(head, items, next);
      }
    }

    /** The loop stands at `to`, the next entry is saved in tmp. */
    ghost predicate Walking(to: ListHead?<Timer>, tmp: ListHead?<Timer>, s: Loop)
      reads this, head`next, head`prev, items, handles`entry, to
    {
      && Valid() && s.b == State() && s.cur <= |items| && to != null && tmp == to.next
      && if s.cur < |items| then to == items[s.cur] && to != head else to == head
    }

    /** One round of the loop, ended with the cursor moved on. */
    method RunRound(to: ListHead?<Timer>, tmp: ListHead?<Timer>, ghost s: Loop, h: Handlers, before: seq<Firing>)
      returns (fired: seq<Firing>, ghost s': Loop, to': ListHead?<Timer>, tmp': ListHead?<Timer>)
      requires Walking(to, tmp, s) && !Ended(s) && before == s.fired
      modifies this, head`next, head`prev, handles
      ensures Walking(to', tmp', s') && s' == Round(s, h, w) && fired == s'.fired && Grows()
    {
      var f;
      ghost var next;
      f, next := RunSaved(to, tmp, s.cur, h(|before|));
      fired := before + f;
      s' := Loop(State(), next, fired);
      to' := tmp;
      tmp' := to'.next;
    }

    /** handle_timeouts, for handlers with which its loop ends: `course` is the loop from its
        first round to its end. */
    method Handle(h: Handlers, ghost course: seq<Loop>) returns (fired: seq<Firing>)
      requires Valid() && items != [] && Course(course, State(), h, w)
      modifies this, head`next, head`prev, handles
      ensures Valid() && Grows()
      ensures var s := course[|course| - 1]; State() == s.b && fired == s.fired
    {
      HeadFirst(head, items);
      var to := head.next;
      HeadOnce(head, items, 0);
      var tmp := to.next;
      ghost var i, s := 0, course[0];
      fired := [];
      while to != head
        invariant 0 <= i < |course| && s == course[i]
        invariant Walking(to, tmp, s) && Grows() && fired == s.fired
        decreases |course| - i
      {
        if to.entry.expires != ZERO {
          break;
        }
        fired, s, to, tmp := RunRound(to, tmp, s, h, fired);
        i := i + 1;
      }
    }
  }

  /** The id of a handle is the id of its entry and of no other. */
  lemma IdNames(t: Timeouts, x: ListHead<Timer>)
    requires t.Valid() && x in t.handles
    ensures forall i :: 0 <= i < |t.items| ==> (t.Queue()[i].id == x.entry.id <==> t.items[i] == x)
  {
  }

  lemma NoSuchId(t: Timeouts, id: nat)
    requires t.Valid() && id >= |t.handles|
    ensures Disarm(t.Queue(), id) == t.Queue()
  {
    DisarmEach(t.Queue(), id);
    forall i | 0 <= i < |t.items| ensures t.Queue()[i].id != id {
      assert t.items[i] in t.handles;
    }
  }

  datatype Option<T> = None | Some(value: T)

  lemma SameId(t: Timeouts, hs: seq<ListHead<Timer>>, x: ListHead<Timer>, id: nat)
    requires t.Valid() && hs <= t.handles && id < |hs| && hs[id] == x
    ensures x.entry.id == id
  {
  }

  /** An entry is found by its id. */
  lemma Found(t: Timeouts, x: ListHead<Timer>)
    requires t.Valid() && x in t.items
    ensures var i := IndexOf(t.Queue(), x.entry.id); i < |t.items| && t.items[i] == x
  {
    var k :| 0 <= k < |t.items| && t.items[k] == x;
    IdNames(t, x);
    IndexFound(t.Queue(), x.entry.id, k);
  }
}
