/** The intrusive circular doubly linked list of include/list.h. A node and the record it is
    embedded in are one object here. A ring is named by the sequence of its nodes in `next`
    order from any node on; a list is the ring that starts with its head. */
module ListHead {

  function After(i: nat, n: nat): nat { if i + 1 == n then 0 else i + 1 }

  function Before(i: nat, n: nat): nat
    requires n > 0
  {
    if i == 0 then n - 1 else i - 1
  }

  ghost predicate NoDup<A>(s: seq<A>) {
    forall i, j :: 0 <= i < j < |s| ==> s[i] != s[j]
  }

  ghost predicate Ring<T>(s: seq<ListHead<T>>)
    reads s`next, s`prev
  {
    && s != [] && NoDup(s)
    && (forall i :: 0 <= i < |s| ==> s[i].next == s[After(i, |s|)])
    && (forall i :: 0 <= i < |s| ==> s[i].prev == s[Before(i, |s|)])
  }

  /** Null stands for the poison that list_del leaves behind. */
  class ListHead<T> {
    var next: ListHead?<T>
    var prev: ListHead?<T>
    var entry: T

    constructor (entry: T)
      ensures Ring([this]) && this.entry == entry
    {
      this.entry := entry;
      next := this;
      prev := this;
    }

    /** INIT_LIST_HEAD. */
    method Init()
      modifies `next, `prev
      ensures Ring([this])
    {
      next := this;
      prev := this;
    }
  }

  lemma NoDupSwap<A>(a: seq<A>, b: seq<A>)
    requires NoDup(a + b)
    ensures NoDup(b + a)
  {
    var s, r := a + b, b + a;
    forall i, j | 0 <= i < j < |r| ensures r[i] != r[j] {
      var i', j' := if i < |b| then i + |a| else i - |b|, if j < |b| then j + |a| else j - |b|;
      assert r[i] == s[i'] && r[j] == s[j'];
    }
  }

  lemma NoDupPart<A>(a: seq<A>, b: seq<A>)
    requires NoDup(a + b)
    ensures NoDup(a) && NoDup(b)
    ensures forall x :: x in a ==> x !in b
  {
    forall i, j | 0 <= i < j < |a| ensures a[i] != a[j] {
      assert (a + b)[i] == a[i] && (a + b)[j] == a[j];
    }
    forall i, j | 0 <= i < j < |b| ensures b[i] != b[j] {
      assert (a + b)[i + |a|] == b[i] && (a + b)[j + |a|] == b[j];
    }
    forall x | x in a ensures x !in b {
      var i :| 0 <= i < |a| && a[i] == x;
      assert (a + b)[i] == x;
      forall j | 0 <= j < |b| ensures b[j] != x { assert (a + b)[j + |a|] == b[j]; }
    }
  }

  /** A ring may be named from any of its nodes. */
  lemma Rotate<T>(a: seq<ListHead<T>>, b: seq<ListHead<T>>)
    requires Ring(a + b)
    ensures Ring(b + a)
  {
    var s, r := a + b, b + a;
    var n := |s|;
    NoDupSwap(a, b);
    forall i | 0 <= i < n ensures r[i].next == r[After(i, n)] && r[i].prev == r[Before(i, n)] {
      var j := if i < |b| then i + |a| else i - |b|;
      assert r[i] == s[j];
    }
  }

  /** A node between the last and the first makes the ring longer by one. */
  method LinkLast<T>(x: ListHead<T>, prev: ListHead<T>, next: ListHead<T>, ghost s: seq<ListHead<T>>)
    requires Ring(s) && prev == s[|s| - 1] && next == s[0] && x !in s
    modifies x`next, x`prev, prev`next, next`prev
    ensures Ring(s + [x])
  {
    next.prev := x;
    x.next := next;
    x.prev := prev;
    prev.next := x;
  }

  lemma LastNeighbours<T>(x: ListHead<T>, s: seq<ListHead<T>>)
    requires s != [] && Ring(s + [x])
    ensures x.next == s[0] && x.prev == s[|s| - 1] && x !in s && NoDup(s)
    ensures forall i :: 0 <= i < |s| - 1 ==> s[i].next == s[i + 1] && s[i + 1].prev == s[i]
  {
    var r := s + [x];
    NoDupPart(s, [x]);
    assert r[|s|] == x && r[0] == s[0] && r[|s| - 1] == s[|s| - 1];
    forall i | 0 <= i < |s| - 1 ensures s[i].next == s[i + 1] && s[i + 1].prev == s[i] {
      assert r[i] == s[i] && r[i + 1] == s[i + 1];
    }
  }

  /** Without its last node the ring closes up; the node keeps its own pointers. */
  method UnlinkLast<T>(x: ListHead<T>, ghost s: seq<ListHead<T>>)
    requires Ring(s + [x])
    modifies x`next, x`prev, s`next, s`prev
    ensures x !in s && x.next == old(x.next) && x.prev == old(x.prev)
    ensures if s == [] then Ring([x]) else Ring(s)
  {
    if s != [] {
      LastNeighbours(x, s);
    } else {
      assert s + [x] == [x] && [x][0].next == x && [x][0].prev == x;
    }
    x.next.prev := x.prev;
    x.prev.next := x.next;
  }

  // ----- the operations, at any place of a ring

  /** __list_add: between the last node of a and the node after it. */
  method Link<T>(x: ListHead<T>, prev: ListHead<T>, next: ListHead<T>,
                 ghost a: seq<ListHead<T>>, ghost b: seq<ListHead<T>>)
    requires Ring(a + b) && a != [] && prev == a[|a| - 1] && next == (b + a)[0] && x !in a + b
    modifies x`next, x`prev, prev`next, next`prev
    ensures Ring(a + [x] + b)
  {
    Rotate(a, b);
    assert x !in b + a && (b + a)[|b + a| - 1] == prev;
    LinkLast(x, prev, next, b + a);
    assert (b + a) + [x] == b + (a + [x]);
    Rotate(b, a + [x]);
  }

  lemma Neighbours<T>(a: seq<ListHead<T>>, b: seq<ListHead<T>>)
    requires Ring(a + b) && a != []
    ensures a[|a| - 1].next == (b + a)[0] && (b + a)[0].prev == a[|a| - 1]
  {
    Rotate(a, b);
    assert (b + a)[|b + a| - 1] == a[|a| - 1];
  }

  /** list_add: after the last node of a. */
  method Add<T>(x: ListHead<T>, head: ListHead<T>, ghost a: seq<ListHead<T>>, ghost b: seq<ListHead<T>>)
    requires Ring(a + b) && a != [] && head == a[|a| - 1] && x !in a + b
    modifies x`next, x`prev, a`next, a`prev, b`next, b`prev
    ensures Ring(a + [x] + b)
  {
    Neighbours(a, b);
    Link(x, head, head.next, a, b);
  }

  /** list_add_tail: before the node that follows a. When that is the head, b is empty and x
      becomes the last entry of the list. */
  method AddTail<T>(x: ListHead<T>, head: ListHead<T>, ghost a: seq<ListHead<T>>, ghost b: seq<ListHead<T>>)
    requires Ring(a + b) && a != [] && head == (b + a)[0] && x !in a + b
    modifies x`next, x`prev, a`next, a`prev, b`next, b`prev
    ensures Ring(a + [x] + b)
  {
    Neighbours(a, b);
    Link(x, head.prev, head, a, b);
  }

  /** __list_del_entry: the neighbours close up, the entry keeps its own pointers. */
  method Unlink<T>(x: ListHead<T>, ghost a: seq<ListHead<T>>, ghost b: seq<ListHead<T>>)
    requires Ring(a + [x] + b)
    modifies x`next, x`prev, a`next, a`prev, b`next, b`prev
    ensures x !in a + b && x.next == old(x.next) && x.prev == old(x.prev)
    ensures if a + b == [] then Ring([x]) else Ring(a + b)
  {
    Rotate(a + [x], b);
    assert b + (a + [x]) == (b + a) + [x];
    UnlinkLast(x, b + a);
    if a + b != [] {
      Rotate(b, a);
    }
  }

  /** list_del. */
  method Del<T>(x: ListHead<T>, ghost a: seq<ListHead<T>>, ghost b: seq<ListHead<T>>)
    requires Ring(a + [x] + b)
    modifies x`next, x`prev, a`next, a`prev, b`next, b`prev
    ensures x !in a + b && x.next == null && x.prev == null
    ensures a + b != [] ==> Ring(a + b)
  {
    Unlink(x, a, b);
    x.next := null;
    x.prev := null;
  }

  /** list_del_init. */
  method DelInit<T>(x: ListHead<T>, ghost a: seq<ListHead<T>>, ghost b: seq<ListHead<T>>)
    requires Ring(a + [x] + b)
    modifies x`next, x`prev, a`next, a`prev, b`next, b`prev
    ensures x !in a + b && Ring([x])
    ensures a + b != [] ==> Ring(a + b)
  {
    Unlink(x, a, b);
    x.Init();
  }

  ghost predicate Apart<A>(s: seq<A>, t: seq<A>) { forall i :: 0 <= i < |s| ==> s[i] !in t }

  /** The nodes of s are none of those of a ring a + [x] + b. */
  ghost predicate Outside<A>(s: seq<A>, a: seq<A>, x: A, b: seq<A>) { Apart(s, a) && x !in s && Apart(s, b) }

  lemma OutsideSwap<A>(s: seq<A>, t: seq<A>, a: seq<A>, x: A, b: seq<A>)
    requires Outside(s + t, a, x, b)
    ensures Apart(a + b, s) && Apart(a + b, t)
  {
    assert forall j :: 0 <= j < |s| ==> s[j] == (s + t)[j];
    assert forall j :: 0 <= j < |t| ==> t[j] == (s + t)[j + |s|];
  }

  /** list_move: from its place to just after the last node of c, where c and d name what
      remains of its own ring, or another ring. */
  method Move<T>(x: ListHead<T>, head: ListHead<T>, ghost a: seq<ListHead<T>>, ghost b: seq<ListHead<T>>,
                 ghost c: seq<ListHead<T>>, ghost d: seq<ListHead<T>>)
    requires Ring(a + [x] + b) && c != [] && head == c[|c| - 1]
    requires c + d == a + b || (Ring(c + d) && Outside(c + d, a, x, b))
    modifies x`next, x`prev, a`next, a`prev, b`next, b`prev, c`next, c`prev, d`next, d`prev
    ensures Ring(c + [x] + d)
    ensures c + d != a + b && a + b != [] ==> Ring(a + b)
  {
    assert c + d != a + b ==> Outside(c + d, a, x, b);
    Unlink(x, a, b);
    assert x !in c + d;
    if c + d != a + b { OutsideSwap(c, d, a, x, b); }
    Add(x, head, c, d);
  }

  /** list_move_tail: from its place to just before the node that follows c. */
  method MoveTail<T>(x: ListHead<T>, head: ListHead<T>, ghost a: seq<ListHead<T>>, ghost b: seq<ListHead<T>>,
                     ghost c: seq<ListHead<T>>, ghost d: seq<ListHead<T>>)
    requires Ring(a + [x] + b) && c != [] && head == (d + c)[0]
    requires c + d == a + b || (Ring(c + d) && Outside(c + d, a, x, b))
    modifies x`next, x`prev, a`next, a`prev, b`next, b`prev, c`next, c`prev, d`next, d`prev
    ensures Ring(c + [x] + d)
    ensures c + d != a + b && a + b != [] ==> Ring(a + b)
  {
    assert c + d != a + b ==> Outside(c + d, a, x, b);
    Unlink(x, a, b);
    assert x !in c + d;
    if c + d != a + b { OutsideSwap(c, d, a, x, b); }
    AddTail(x, head, c, d);
  }

  /** list_empty. */
  method Empty<T>(head: ListHead<T>, ghost xs: seq<ListHead<T>>) returns (r: bool)
    requires Ring([head] + xs)
    ensures r <==> xs == []
  {
    assert ([head] + xs)[0] == head && (xs != [] ==> ([head] + xs)[1] == xs[0]);
    r := head.next == head;
  }

  /** list_is_singular. */
  method IsSingular<T>(head: ListHead<T>, ghost xs: seq<ListHead<T>>) returns (r: bool)
    requires Ring([head] + xs)
    ensures r <==> |xs| == 1
  {
    var empty := Empty(head, xs);
    ghost var s := [head] + xs;
    assert s[0] == head && s[0].next == s[After(0, |s|)] && s[0].prev == s[Before(0, |s|)];
    r := !empty && head.next == head.prev;
  }

  /** list_is_last. */
  method IsLast<T>(x: ListHead<T>, head: ListHead<T>, ghost xs: seq<ListHead<T>>) returns (r: bool)
    requires Ring([head] + xs) && x in xs
    ensures r <==> x == xs[|xs| - 1]
  {
    ghost var s := [head] + xs;
    ghost var i :| 0 <= i < |xs| && xs[i] == x;
    assert s[i + 1] == x && s[|xs|] == xs[|xs| - 1] && s[i + 1].next == s[After(i + 1, |s|)];
    assert s[0] == head && (i + 1 < |xs| ==> s[0] != s[i + 2] && s[i + 1] != s[|xs|]);
    r := x.next == head;
  }

  /** list_rotate_left: the first entry becomes the last. */
  method RotateLeft<T>(head: ListHead<T>, ghost xs: seq<ListHead<T>>)
    requires Ring([head] + xs)
    modifies head`next, head`prev, xs`next, xs`prev
    ensures Ring([head] + if xs == [] then [] else xs[1..] + [xs[0]])
  {
    var empty := Empty(head, xs);
    if !empty {
      assert ([head] + xs)[1] == xs[0] && ([head] + xs)[0].next == ([head] + xs)[1];
      var first := head.next;
      assert [head] + xs == [head] + [first] + xs[1..];
      assert ([] + ([head] + xs[1..]))[0] == head;
      assert [head] + xs[1..] + [] == [head] + xs[1..];
      MoveTail(first, head, [head], xs[1..], [head] + xs[1..], []);
      assert ([head] + xs[1..]) + [first] + [] == [head] + (xs[1..] + [xs[0]]);
    }
  }

  // ----- replacing

  lemma LastOnly<T>(x: ListHead<T>, s: seq<ListHead<T>>)
    requires Ring(s + [x])
    ensures s == [] ==> x.next == x && x.prev == x
  {
    assert s == [] ==> (s + [x])[0] == x;
  }

  /** A row of nodes and one that closes it up make a ring. */
  lemma CloseUp<T>(y: ListHead<T>, s: seq<ListHead<T>>)
    requires NoDup(s) && y !in s
    requires forall i :: 0 <= i < |s| - 1 ==> s[i].next == s[i + 1] && s[i + 1].prev == s[i]
    requires if s == [] then y.next == y && y.prev == y
             else y.next == s[0] && s[0].prev == y && y.prev == s[|s| - 1] && s[|s| - 1].next == y
    ensures Ring(s + [y])
  {
    var r := s + [y];
    forall i | 0 <= i < |r| ensures r[i].next == r[After(i, |r|)] && r[i].prev == r[Before(i, |r|)] {
      if s == [] { assert r[i] == y; }
    }
  }

  method ReplaceLast<T>(x: ListHead<T>, y: ListHead<T>, ghost s: seq<ListHead<T>>)
    requires Ring(s + [x]) && y != x && y !in s
    modifies x`next, x`prev, y`next, y`prev, s`next, s`prev
    ensures Ring(s + [y])
  {
    if s != [] { LastNeighbours(x, s); } else { LastOnly(x, s); }
    y.next := x.next;
    y.next.prev := y;
    y.prev := x.prev;
    y.prev.next := y;
    CloseUp(y, s);
  }

  /** list_replace: y takes the place of x. An empty list x makes y an empty list. */
  method Replace<T>(x: ListHead<T>, y: ListHead<T>, ghost a: seq<ListHead<T>>, ghost b: seq<ListHead<T>>)
    requires Ring(a + [x] + b) && y !in a + [x] + b
    modifies x`next, x`prev, y`next, y`prev, a`next, a`prev, b`next, b`prev
    ensures Ring(a + [y] + b)
  {
    Rotate(a + [x], b);
    assert b + (a + [x]) == (b + a) + [x];
    assert y !in b + a;
    ReplaceLast(x, y, b + a);
    assert (b + a) + [y] == b + (a + [y]);
    Rotate(b, a + [y]);
  }

  lemma NotElsewhere<T>(a: seq<ListHead<T>>, x: ListHead<T>, b: seq<ListHead<T>>)
    requires Ring(a + [x] + b)
    ensures x !in a && x !in b
  {
    NoDupPart(a + [x], b);
    NoDupPart(a, [x]);
    assert x in a + [x] && x in [x];
  }

  /** list_replace_init. */
  method ReplaceInit<T>(x: ListHead<T>, y: ListHead<T>, ghost a: seq<ListHead<T>>, ghost b: seq<ListHead<T>>)
    requires Ring(a + [x] + b) && y !in a + [x] + b
    modifies x`next, x`prev, y`next, y`prev, a`next, a`prev, b`next, b`prev
    ensures Ring(a + [y] + b) && Ring([x])
  {
    NotElsewhere(a, x, b);
    Replace(x, y, a, b);
    x.Init();
  }

  // ----- cutting and splicing

  /** Consecutive nodes point to each other. */
  ghost predicate Row<T>(s: seq<ListHead<T>>)
    reads s`next, s`prev
  {
    && (forall i {:trigger s[i].next} :: 0 <= i < |s| - 1 ==> s[i].next == s[i + 1])
    && (forall i {:trigger s[i].prev} :: 0 < i < |s| ==> s[i].prev == s[i - 1])
  }

  lemma RingRow<T>(s: seq<ListHead<T>>)
    requires Ring(s)
    ensures Row(s) && s[|s| - 1].next == s[0] && s[0].prev == s[|s| - 1]
  {
    forall i | 0 <= i < |s| ensures s[i].next == s[After(i, |s|)] && s[i].prev == s[Before(i, |s|)] {}
  }

  lemma RowRing<T>(s: seq<ListHead<T>>)
    requires s != [] && NoDup(s) && Row(s) && s[|s| - 1].next == s[0] && s[0].prev == s[|s| - 1]
    ensures Ring(s)
  {
    forall i | 0 <= i < |s| ensures s[i].next == s[After(i, |s|)] && s[i].prev == s[Before(i, |s|)] {
    }
  }

  lemma RowParts<T>(s: seq<ListHead<T>>, t: seq<ListHead<T>>)
    requires Row(s + t)
    ensures Row(s) && Row(t)
    ensures s != [] && t != [] ==> s[|s| - 1].next == t[0] && t[0].prev == s[|s| - 1]
  {
    var r := s + t;
    assert forall i :: 0 <= i < |s| ==> s[i] == r[i];
    forall i | 0 <= i < |t| ensures (i < |t| - 1 ==> t[i].next == t[i + 1]) && (i > 0 ==> t[i].prev == t[i - 1]) {
      assert t[i] == r[i + |s|] && r[i + |s|].next == r[i + |s|].next && r[i + |s|].prev == r[i + |s|].prev;
    }
    if s != [] && t != [] {
      assert r[|s| - 1] == s[|s| - 1] && r[|s|] == t[0];
    }
  }

  lemma RowJoin<T>(s: seq<ListHead<T>>, t: seq<ListHead<T>>)
    requires Row(s) && Row(t)
    requires s != [] && t != [] ==> s[|s| - 1].next == t[0] && t[0].prev == s[|s| - 1]
    ensures Row(s + t)
  {
  }

  lemma NoDupJoin<A>(s: seq<A>, t: seq<A>)
    requires NoDup(s) && NoDup(t) && Apart(s, t)
    ensures NoDup(s + t)
  {
    var r := s + t;
    forall i, j | 0 <= i < j < |r| ensures r[i] != r[j] {
      if i < |s| && j >= |s| { assert r[i] == s[i] && r[j] in t; }
    }
  }

  lemma SpliceFacts<T>(list: ListHead<T>, l: seq<ListHead<T>>, s: seq<ListHead<T>>)
    requires Ring([list] + l) && l != [] && Ring(s) && Apart(s, [list] + l)
    ensures list.next == l[0] && list.prev == l[|l| - 1] && Row(l) && Row(s)
    ensures NoDup(s + l) && list !in l && list !in s && NoDup(l)
    ensures Apart(s, l) && Apart(l, s)
  {
    var r := [list] + l;
    RingRow(r);
    RingRow(s);
    RowParts([list], l);
    NoDupPart([list], l);
    assert list in [list];
    assert r[|r| - 1] == l[|l| - 1] && r[0] == list;
    assert forall i :: 0 <= i < |l| ==> l[i] == r[i + 1];
    NoDupJoin(s, l);
  }

  /** __list_splice: the entries of the list go between the last node of s and its first; the
      list head is left as it was. */
  method SpliceLast<T>(list: ListHead<T>, prev: ListHead<T>, next: ListHead<T>,
                       ghost l: seq<ListHead<T>>, ghost s: seq<ListHead<T>>)
    requires Ring([list] + l) && l != [] && Ring(s) && Apart(s, [list] + l)
    requires prev == s[|s| - 1] && next == s[0]
    modifies prev`next, next`prev, l`next, l`prev
    ensures Ring(s + l)
  {
    SpliceFacts(list, l, s);
    var first := list.next;
    var last := list.prev;
    first.prev := prev;
    prev.next := first;
    last.next := next;
    next.prev := last;
    RowJoin(s, l);
    RowRing(s + l);
  }

  lemma ApartSwap<A>(a: seq<A>, b: seq<A>, t: seq<A>)
    requires Apart(a + b, t)
    ensures Apart(b + a, t)
  {
    assert forall i :: 0 <= i < |a| ==> a[i] == (a + b)[i];
    assert forall i :: 0 <= i < |b| ==> b[i] == (a + b)[i + |a|];
  }

  /** __list_splice: the entries of the list go between the last node of a and the node that
      follows it. */
  method SpliceBetween<T>(list: ListHead<T>, prev: ListHead<T>, next: ListHead<T>, ghost l: seq<ListHead<T>>,
                          ghost a: seq<ListHead<T>>, ghost b: seq<ListHead<T>>)
    requires Ring([list] + l) && l != [] && Ring(a + b) && a != [] && Apart(a + b, [list] + l)
    requires prev == a[|a| - 1] && next == (b + a)[0]
    modifies prev`next, next`prev, l`next, l`prev
    ensures Ring(a + l + b)
  {
    Rotate(a, b);
    ApartSwap(a, b, [list] + l);
    assert (b + a)[|b + a| - 1] == prev;
    SpliceLast(list, prev, next, l, b + a);
    assert (b + a) + l == b + (a + l);
    Rotate(b, a + l);
  }

  /** list_splice: after the last node of a. An empty list changes nothing. */
  method Splice<T>(list: ListHead<T>, head: ListHead<T>, ghost l: seq<ListHead<T>>,
                   ghost a: seq<ListHead<T>>, ghost b: seq<ListHead<T>>)
    requires Ring([list] + l) && Ring(a + b) && a != [] && head == a[|a| - 1] && Apart(a + b, [list] + l)
    modifies l`next, l`prev, a`next, a`prev, b`next, b`prev
    ensures Ring(a + l + b)
  {
    Neighbours(a, b);
    var empty := Empty(list, l);
    if !empty {
      SpliceBetween(list, head, head.next, l, a, b);
    } else {
      assert a + l + b == a + b;
    }
  }

  /** list_splice_tail: before the node that follows a. */
  method SpliceTail<T>(list: ListHead<T>, head: ListHead<T>, ghost l: seq<ListHead<T>>,
                       ghost a: seq<ListHead<T>>, ghost b: seq<ListHead<T>>)
    requires Ring([list] + l) && Ring(a + b) && a != [] && head == (b + a)[0] && Apart(a + b, [list] + l)
    modifies l`next, l`prev, a`next, a`prev, b`next, b`prev
    ensures Ring(a + l + b)
  {
    Neighbours(a, b);
    var empty := Empty(list, l);
    if !empty {
      SpliceBetween(list, head.prev, head, l, a, b);
    } else {
      assert a + l + b == a + b;
    }
  }

  lemma ListOutside<T>(list: ListHead<T>, l: seq<ListHead<T>>, a: seq<ListHead<T>>, b: seq<ListHead<T>>)
    requires Ring([list] + l) && Apart(a + b, [list] + l)
    ensures list !in a + l + b
  {
    NoDupPart([list], l);
    assert list in [list];
    assert forall i :: 0 <= i < |a| ==> a[i] == (a + b)[i];
    assert forall i :: 0 <= i < |b| ==> b[i] == (a + b)[i + |a|];
    assert list in [list] + l;
  }

  /** list_splice_init. */
  method SpliceInit<T>(list: ListHead<T>, head: ListHead<T>, ghost l: seq<ListHead<T>>,
                       ghost a: seq<ListHead<T>>, ghost b: seq<ListHead<T>>)
    requires Ring([list] + l) && Ring(a + b) && a != [] && head == a[|a| - 1] && Apart(a + b, [list] + l)
    modifies list`next, list`prev, l`next, l`prev, a`next, a`prev, b`next, b`prev
    ensures Ring(a + l + b) && Ring([list])
  {
    ListOutside(list, l, a, b);
    Neighbours(a, b);
    var empty := Empty(list, l);
    if !empty {
      SpliceBetween(list, head, head.next, l, a, b);
      list.Init();
    } else {
      assert a + l + b == a + b;
    }
  }

  /** list_splice_tail_init. */
  method SpliceTailInit<T>(list: ListHead<T>, head: ListHead<T>, ghost l: seq<ListHead<T>>,
                           ghost a: seq<ListHead<T>>, ghost b: seq<ListHead<T>>)
    requires Ring([list] + l) && Ring(a + b) && a != [] && head == (b + a)[0] && Apart(a + b, [list] + l)
    modifies list`next, list`prev, l`next, l`prev, a`next, a`prev, b`next, b`prev
    ensures Ring(a + l + b) && Ring([list])
  {
    ListOutside(list, l, a, b);
    Neighbours(a, b);
    var empty := Empty(list, l);
    if !empty {
      SpliceBetween(list, head.prev, head, l, a, b);
      list.Init();
    } else {
      assert a + l + b == a + b;
    }
  }

  // ----- cutting

  lemma CutApartFacts<T>(head: ListHead<T>, p: seq<ListHead<T>>, q: seq<ListHead<T>>)
    requires NoDup([head] + (p + q))
    ensures NoDup(p) && NoDup(q) && head !in p && head !in q && Apart(p, q) && Apart(q, p)
  {
    NoDupPart([head], p + q);
    NoDupPart(p, q);
    assert head in [head];
    assert forall i :: 0 <= i < |p| ==> p[i] == (p + q)[i];
    assert forall i :: 0 <= i < |q| ==> q[i] == (p + q)[i + |p|];
  }

  lemma CutFacts<T>(head: ListHead<T>, p: seq<ListHead<T>>, q: seq<ListHead<T>>)
    requires Ring([head] + p + q) && p != []
    ensures Row(p) && Row(q) && NoDup(p) && NoDup(q) && head !in p && head !in q && Apart(p, q) && Apart(q, p)
    ensures head.next == p[0] && p[|p| - 1].next == if q == [] then head else q[0]
    ensures q != [] ==> head.prev == q[|q| - 1] && q[|q| - 1].next == head
  {
    var s := [head] + p + q;
    assert s == [head] + (p + q);
    CutApartFacts(head, p, q);
    RingRow(s);
    RowParts([head], p + q);
    RowParts(p, q);
    assert s[0] == head && s[|p|] == p[|p| - 1];
    assert q != [] ==> s[|s| - 1] == q[|q| - 1];
  }

  /** A head in front of a row, closed up, is a list. */
  lemma HeadRing<T>(head: ListHead<T>, s: seq<ListHead<T>>)
    requires NoDup(s) && head !in s && Row(s)
    requires if s == [] then head.next == head && head.prev == head
             else head.next == s[0] && s[0].prev == head && head.prev == s[|s| - 1] && s[|s| - 1].next == head
    ensures Ring([head] + s)
  {
    NoDupJoin([head], s);
    RowJoin([head], s);
    RowRing([head] + s);
  }

  /** __list_cut_position: p goes to the new list, q stays. */
  method CutAfter<T>(list: ListHead<T>, head: ListHead<T>, entry: ListHead<T>,
                     ghost p: seq<ListHead<T>>, ghost q: seq<ListHead<T>>)
    requires Ring([head] + p + q) && p != [] && entry == p[|p| - 1] && list !in [head] + p + q
    modifies list`next, list`prev, head`next, head`prev, p`next, p`prev, q`next, q`prev
    ensures Ring([list] + p) && Ring([head] + q)
  {
    CutFacts(head, p, q);
    assert list !in p && list !in q && list != head;
    var newFirst := entry.next;
    list.next := head.next;
    list.next.prev := list;
    list.prev := entry;
    entry.next := list;
    head.next := newFirst;
    newFirst.prev := head;
    HeadRing(list, p);
    HeadRing(head, q);
  }

  /** list_cut_position: the entries up to and including `entry` move to the new list. Nothing
      happens to an empty list, nor to a list of one entry that is not `entry`; when `entry`
      is the head itself the new list is empty. A longer list must hold `entry`. */
  method CutPosition<T>(list: ListHead<T>, head: ListHead<T>, entry: ListHead<T>,
                        ghost xs: seq<ListHead<T>>, ghost i: nat)
    requires Ring([head] + xs) && list !in [head] + xs
    requires entry in xs ==> i < |xs| && xs[i] == entry
    requires |xs| > 1 ==> entry == head || entry in xs
    modifies list`next, list`prev, head`next, head`prev, xs`next, xs`prev
    ensures entry in xs ==> Ring([list] + xs[..i + 1]) && Ring([head] + xs[i + 1..])
    ensures entry !in xs ==> Ring([head] + xs)
    ensures entry == head && xs != [] ==> Ring([list])
    ensures xs == [] || (entry != head && entry !in xs) ==> list.next == old(list.next) && list.prev == old(list.prev)
  {
    NoDupPart([head], xs);
    assert head in [head] && list !in xs;
    var empty := Empty(head, xs);
    if empty {
      return;
    }
    var singular := IsSingular(head, xs);
    assert ([head] + xs)[0] == head && ([head] + xs)[1] == xs[0];
    if singular && (head.next != entry && head != entry) {
      assert |xs| == 1 && xs[0] != entry;
      return;
    }
    if entry == head {
      list.Init();
    } else {
      assert xs == xs[..i + 1] + xs[i + 1..];
      assert [head] + xs == [head] + xs[..i + 1] + xs[i + 1..];
      CutAfter(list, head, entry, xs[..i + 1], xs[i + 1..]);
    }
  }

  lemma CutApart<T>(list: ListHead<T>, head: ListHead<T>, xs: seq<ListHead<T>>, k: nat)
    requires NoDup([head] + xs) && list !in [head] + xs && k <= |xs|
    ensures Apart([head] + xs[k..], [list] + xs[..k])
  {
    NoDupPart([head], xs);
    assert xs == xs[..k] + xs[k..] && head in [head];
    NoDupPart(xs[..k], xs[k..]);
    var rest, cut := [head] + xs[k..], [list] + xs[..k];
    forall j | 0 <= j < |rest| ensures rest[j] !in cut {
      assert j > 0 ==> rest[j] == xs[k..][j - 1] && rest[j] in xs[k..];
    }
  }

  /** Splicing what was cut off back at the head restores the list. */
  method CutAndSplice<T>(list: ListHead<T>, head: ListHead<T>, entry: ListHead<T>,
                         ghost xs: seq<ListHead<T>>, ghost i: nat)
    requires Ring([head] + xs) && list !in [head] + xs && i < |xs| && entry == xs[i]
    modifies list`next, list`prev, head`next, head`prev, xs`next, xs`prev
    ensures Ring([head] + xs)
  {
    CutPosition(list, head, entry, xs, i);
    CutApart(list, head, xs, i + 1);
    Splice(list, head, xs[..i + 1], [head], xs[i + 1..]);
    assert [head] + xs[..i + 1] + xs[i + 1..] == [head] + xs;
  }
}
