/** Who owns which descriptor: the free chain and the chains in flight divide the table. */
module Ownership {
  import opened Words
  import opened Vring

  /** A chain in flight: its descriptors in order, what they describe, its cookie. */
  datatype Chain = Chain(idxs: seq<nat>, bufs: seq<Buf>, cookie: nat)

  function Head(c: Chain): nat
    requires c.idxs != []
  {
    c.idxs[0]
  }

  /** All descriptors of the chains, with multiplicity. */
  ghost function Sum(cs: seq<Chain>): multiset<nat> {
    if cs == [] then multiset{} else multiset(cs[0].idxs) + Sum(cs[1..])
  }

  /** Every index of an n-entry table once. */
  ghost function Range(n: nat): (m: multiset<nat>)
    ensures forall i: nat :: m[i] == if i < n then 1 else 0
    ensures |m| == n
  {
    if n == 0 then multiset{} else Range(n - 1) + multiset{n - 1}
  }

  /** Entry j of the free chain, or the terminator behind it. */
  function At(free: seq<nat>, j: nat): nat {
    if j < |free| then free[j] else CHAIN_END
  }

  ghost predicate FreeList(desc: seq<Desc>, head: nat, free: seq<nat>) {
    && head == At(free, 0)
    && forall j :: 0 <= j < |free| ==> free[j] < |desc| && desc[free[j]].next == At(free, j + 1)
  }

  ghost predicate LinkOk(desc: seq<Desc>, c: Chain, j: nat)
    requires j < |c.idxs| == |c.bufs|
  {
    && c.idxs[j] < |desc|
    && var d := desc[c.idxs[j]];
    && d.addr == c.bufs[j].addr && d.len == c.bufs[j].len
    && d.flags == LinkFlags(j + 1 < |c.idxs|, c.bufs[j].write)
    && (j + 1 < |c.idxs| ==> d.next == c.idxs[j + 1])
  }

  ghost predicate ChainOk(desc: seq<Desc>, descx: seq<DescExtra>, c: Chain) {
    && 0 < |c.idxs| == |c.bufs|
    && (forall j :: 0 <= j < |c.idxs| ==> LinkOk(desc, c, j))
    && Head(c) < |descx|
    && descx[Head(c)].cookie == c.cookie && descx[Head(c)].ndescs == |c.idxs|
  }

  ghost predicate Heads(live: seq<Chain>, i: nat) {
    exists c :: c in live && c.idxs != [] && Head(c) == i
  }

  /** The free chain and the chains in flight use each index of the table once. */
  ghost predicate Partition(n: nat, free: seq<nat>, live: seq<Chain>) {
    multiset(free) + Sum(live) == Range(n)
  }

  ghost predicate AllOk(desc: seq<Desc>, descx: seq<DescExtra>, live: seq<Chain>) {
    forall c :: c in live ==> ChainOk(desc, descx, c)
  }

  /** Only heads of chains in flight have a cookie or a count. */
  ghost predicate Quiet(descx: seq<DescExtra>, live: seq<Chain>) {
    forall i :: 0 <= i < |descx| && !Heads(live, i) ==> descx[i] == DescExtra(0, 0)
  }

  /** The table divides into the free chain, which has freeCnt links, and the chains in
      flight, each linked up and described as its request asked. */
  ghost predicate Own(desc: seq<Desc>, descx: seq<DescExtra>, head: nat, freeCnt: int,
                      free: seq<nat>, live: seq<Chain>)
  {
    && 0 < |desc| == |descx| <= CHAIN_END
    && freeCnt == |free|
    && FreeList(desc, head, free)
    && AllOk(desc, descx, live)
    && Partition(|desc|, free, live)
    && Quiet(descx, live)
  }

  // ----- sums of chains

  lemma {:induction false} SumConcat(a: seq<Chain>, b: seq<Chain>)
    ensures Sum(a + b) == Sum(a) + Sum(b)
  {
    if a == [] {
      assert a + b == b;
    } else {
      assert (a + b)[1..] == a[1..] + b;
      SumConcat(a[1..], b);
    }
  }

  lemma SumCons(c: Chain, cs: seq<Chain>)
    ensures Sum([c] + cs) == multiset(c.idxs) + Sum(cs)
  {
    assert ([c] + cs)[1..] == cs;
  }

  lemma RemoveLater<T>(s: seq<T>, k: nat)
    requires 0 < k < |s|
    ensures s[..k] + s[k + 1..] == [s[0]] + (s[1..][..k - 1] + s[1..][k..])
  {
  }

  lemma {:induction false} SumRemove(cs: seq<Chain>, k: nat)
    requires k < |cs|
    ensures Sum(cs) == multiset(cs[k].idxs) + Sum(cs[..k] + cs[k + 1..])
    decreases k
  {
    if k == 0 {
      assert cs[..0] + cs[1..] == cs[1..];
    } else {
      SumRemove(cs[1..], k - 1);
      RemoveLater(cs, k);
      SumCons(cs[0], cs[1..][..k - 1] + cs[1..][k..]);
    }
  }

  lemma TakeOut<T>(s: seq<T>, k: nat)
    requires k < |s|
    ensures multiset(s) == multiset{s[k]} + multiset(s[..k] + s[k + 1..])
  {
    assert s == s[..k] + [s[k]] + s[k + 1..];
  }

  lemma Cancel<T>(m: multiset<T>, a: multiset<T>, b: multiset<T>)
    requires m + a == m + b
    ensures a == b
  {
    assert m + a - m == a && m + b - m == b;
  }

  lemma Locate<T>(x: T, rest: seq<T>, b: seq<T>) returns (k: nat)
    requires multiset([x] + rest) == multiset(b)
    ensures k < |b| && b[k] == x && multiset(rest) == multiset(b[..k] + b[k + 1..])
  {
    assert x in multiset(b);
    k :| 0 <= k < |b| && b[k] == x;
    TakeOut(b, k);
    Cancel(multiset{x}, multiset(rest), multiset(b[..k] + b[k + 1..]));
  }

  /** The sum does not depend on the order of the chains. */
  lemma {:induction false} SumPermute(a: seq<Chain>, b: seq<Chain>)
    requires multiset(a) == multiset(b)
    ensures Sum(a) == Sum(b)
    decreases |a|
  {
    if a == [] {
      assert |multiset(b)| == 0;
    } else {
      assert a == [a[0]] + a[1..];
      var k := Locate(a[0], a[1..], b);
      SumRemove(b, k);
      SumPermute(a[1..], b[..k] + b[k + 1..]);
    }
  }

  /** The chains use at least one descriptor each. */
  lemma {:induction false} SumSize(cs: seq<Chain>)
    requires forall c :: c in cs ==> c.idxs != []
    ensures |cs| <= |Sum(cs)|
  {
    if cs != [] {
      assert cs[0] in cs;
      SumSize(cs[1..]);
    }
  }

  // ----- consequences of the partition

  lemma Distinct(s: seq<nat>, n: nat)
    requires multiset(s) <= Range(n)
    ensures forall i :: 0 <= i < |s| ==> s[i] < n
    ensures forall i, j :: 0 <= i < j < |s| ==> s[i] != s[j]
  {
    forall i | 0 <= i < |s| ensures s[i] < n {
      assert s[i] in multiset(s);
    }
    forall i, j | 0 <= i < j < |s| ensures s[i] != s[j] {
      assert s == s[..i] + [s[i]] + s[i + 1..];
      assert s[j] == s[i + 1..][j - i - 1];
      assert s[j] in multiset(s[i + 1..]);
      assert multiset(s[i + 1..])[s[j]] >= 1;
      assert multiset(s)[s[j]] <= Range(n)[s[j]] <= 1;
    }
  }

  lemma FreeApart(free: seq<nat>, live: seq<Chain>, n: nat, k: nat, d: nat)
    requires Partition(n, free, live)
    requires k < |live| && d in free
    ensures d !in live[k].idxs
  {
    SumRemove(live, k);
    assert multiset(free)[d] + multiset(live[k].idxs)[d] <= Range(n)[d] <= 1;
    assert d in multiset(free);
  }

  lemma SumTwo(live: seq<Chain>, j: nat, k: nat)
    requires j < k < |live|
    ensures multiset(live[j].idxs) + multiset(live[k].idxs) <= Sum(live)
  {
    assert live == live[..k] + live[k..];
    SumConcat(live[..k], live[k..]);
    SumRemove(live[..k], j);
    SumRemove(live[k..], 0);
  }

  lemma LiveApart(free: seq<nat>, live: seq<Chain>, n: nat, j: nat, k: nat, d: nat)
    requires Partition(n, free, live)
    requires j < |live| && k < |live| && j != k && d in live[j].idxs
    ensures d !in live[k].idxs
  {
    if j < k {
      SumTwo(live, j, k);
    } else {
      SumTwo(live, k, j);
    }
    assert multiset(live[j].idxs)[d] + multiset(live[k].idxs)[d] <= Sum(live)[d] <= Range(n)[d] <= 1;
    assert d in multiset(live[j].idxs);
  }

  lemma LiveDistinct(free: seq<nat>, live: seq<Chain>, n: nat, k: nat)
    requires Partition(n, free, live)
    requires k < |live|
    ensures multiset(live[k].idxs) <= Range(n)
    ensures forall i :: 0 <= i < |live[k].idxs| ==> live[k].idxs[i] < n
    ensures forall i, j :: 0 <= i < j < |live[k].idxs| ==> live[k].idxs[i] != live[k].idxs[j]
  {
    SumRemove(live, k);
    assert multiset(live[k].idxs) <= Sum(live);
    Distinct(live[k].idxs, n);
  }

  // ----- what each change of ownership does

  lemma ChainFrame(desc: seq<Desc>, descx: seq<DescExtra>, desc': seq<Desc>, descx': seq<DescExtra>, c: Chain)
    requires ChainOk(desc, descx, c)
    requires |desc'| == |desc| && |descx'| == |descx|
    requires forall j :: 0 <= j < |c.idxs| ==> c.idxs[j] < |desc| && desc'[c.idxs[j]] == desc[c.idxs[j]]
    requires descx'[Head(c)] == descx[Head(c)]
    ensures ChainOk(desc', descx', c)
  {
    forall j | 0 <= j < |c.idxs| ensures LinkOk(desc', c, j) {
      assert LinkOk(desc, c, j);
    }
  }

  /** Moving chains between the stages of their life changes no ownership. */
  lemma OwnMove(desc: seq<Desc>, descx: seq<DescExtra>, head: nat, freeCnt: int,
                free: seq<nat>, live: seq<Chain>, live': seq<Chain>)
    requires Own(desc, descx, head, freeCnt, free, live)
    requires multiset(live) == multiset(live')
    ensures Own(desc, descx, head, freeCnt, free, live')
  {
    SumPermute(live, live');
    assert forall c :: c in live <==> c in multiset(live);
    assert forall c :: c in live' <==> c in multiset(live');
  }

  /** A path through the table: each index is the `next` of the one before. */
  ghost predicate Path(desc: seq<Desc>, p: seq<nat>) {
    && (forall j :: 0 <= j < |p| ==> p[j] < |desc|)
    && (forall i, j :: 0 <= i < j < |p| ==> p[i] != p[j])
    && (forall j :: 0 <= j < |p| - 1 ==> desc[p[j]].next == p[j + 1])
  }

  /** What the filling loop does along a path: each link takes its entry and keeps its
      `next`, nothing else changes, and the loop ends on what the last link points to. */
  lemma {:induction false} WriteChainAlong(desc: seq<Desc>, p: seq<nat>, bufs: seq<Buf>, i: nat)
    requires Path(desc, p) && |desc| <= CHAIN_END
    requires i < |bufs| == |p|
    ensures var (desc', idx') := WriteChain(desc, p[i], bufs, i);
            && |desc'| == |desc|
            && idx' == desc[p[|p| - 1]].next
            && (forall j :: i <= j < |p| ==> desc'[p[j]] == WriteLink(desc[p[j]], bufs, j))
            && (forall x :: 0 <= x < |desc| && x !in p[i..] ==> desc'[x] == desc[x])
    decreases |bufs| - i
  {
    var desc1 := desc[p[i] := WriteLink(desc[p[i]], bufs, i)];
    if i + 1 < |bufs| {
      assert Path(desc1, p);
      WriteChainAlong(desc1, p, bufs, i + 1);
      assert p[i..] == [p[i]] + p[i + 1..];
    } else {
      assert p[i..] == [p[i]];
    }
  }

  /** The free chain is such a path, and so is each of its prefixes. */
  lemma FreePath(desc: seq<Desc>, head: nat, free: seq<nat>, live: seq<Chain>, k: nat)
    requires FreeList(desc, head, free)
    requires Partition(|desc|, free, live)
    requires 0 < k <= |free|
    ensures Path(desc, free[..k]) && free[..k][0] == head
    ensures desc[free[..k][k - 1]].next == At(free, k)
  {
    assert multiset(free) <= Range(|desc|);
    Distinct(free, |desc|);
    forall j | 0 <= j < k ensures desc[free[j]].next == At(free, j + 1) {}
  }

  /** The chain that a request for `bufs` makes of the free chain. */
  function NewChain(free: seq<nat>, bufs: seq<Buf>, cookie: nat): Chain
    requires |bufs| <= |free|
  {
    Chain(free[..|bufs|], bufs, cookie)
  }

  /** The new chain is linked up and described as requested. */
  lemma NewChainOk(desc: seq<Desc>, descx: seq<DescExtra>, head: u16, free: seq<nat>,
                   live: seq<Chain>, bufs: seq<Buf>, cookie: nat)
    requires Own(desc, descx, head, |free|, free, live)
    requires 0 < |bufs| <= |free|
    ensures var desc' := WriteChain(desc, head, bufs, 0).0;
            |bufs| <= CHAIN_END &&
            ChainOk(desc', descx[head := DescExtra(cookie, |bufs|)], NewChain(free, bufs, cookie))
  {
    var p := free[..|bufs|];
    FreePath(desc, head, free, live, |bufs|);
    WriteChainAlong(desc, p, bufs, 0);
    assert |multiset(free)| <= |Range(|desc|)|;
    var c := NewChain(free, bufs, cookie);
    var desc' := WriteChain(desc, head, bufs, 0).0;
    forall j | 0 <= j < |p| ensures LinkOk(desc', c, j) {
      assert desc'[p[j]] == WriteLink(desc[p[j]], bufs, j);
    }
  }

  lemma DropLinks(desc: seq<Desc>, desc': seq<Desc>, head: nat, free: seq<nat>, k: nat)
    requires FreeList(desc, head, free) && k <= |free| && |desc'| == |desc|
    requires forall j :: k <= j < |free| ==> desc'[free[j]] == desc[free[j]]
    ensures FreeList(desc', At(free, k), free[k..])
  {
    var rest := free[k..];
    forall j | 0 <= j < |rest| ensures rest[j] < |desc'| && desc'[rest[j]].next == At(rest, j + 1) {
      assert rest[j] == free[k + j];
      assert desc[free[k + j]].next == At(free, k + j + 1);
    }
  }

  lemma AddFree(desc: seq<Desc>, descx: seq<DescExtra>, head: u16, free: seq<nat>,
                live: seq<Chain>, bufs: seq<Buf>)
    requires Own(desc, descx, head, |free|, free, live)
    requires 0 < |bufs| <= |free|
    ensures var (desc', head') := WriteChain(desc, head, bufs, 0);
            FreeList(desc', head', free[|bufs|..])
  {
    var k := |bufs|;
    FreePath(desc, head, free, live, k);
    WriteChainAlong(desc, free[..k], bufs, 0);
    assert multiset(free) <= Range(|desc|);
    Distinct(free, |desc|);
    assert free[..k][0..] == free[..k];
    var (desc', head') := WriteChain(desc, head, bufs, 0);
    forall j | k <= j < |free| ensures free[j] < |desc| && desc'[free[j]] == desc[free[j]] {
      assert free[j] !in free[..k];
    }
    DropLinks(desc, desc', head, free, k);
  }

  lemma AddOthers(desc: seq<Desc>, descx: seq<DescExtra>, head: u16, free: seq<nat>,
                  live: seq<Chain>, bufs: seq<Buf>, cookie: nat, k: nat)
    requires Own(desc, descx, head, |free|, free, live)
    requires 0 < |bufs| <= |free| <= CHAIN_END && k < |live|
    ensures head < |desc|
    ensures var desc' := WriteChain(desc, head, bufs, 0).0;
            && (forall j :: 0 <= j < |live[k].idxs| ==>
                  live[k].idxs[j] < |desc| && desc'[live[k].idxs[j]] == desc[live[k].idxs[j]])
            && ChainOk(desc', descx[head := DescExtra(cookie, |bufs|)], live[k])
  {
    var p := free[..|bufs|];
    var c := live[k];
    assert c in live && ChainOk(desc, descx, c);
    FreePath(desc, head, free, live, |bufs|);
    WriteChainAlong(desc, p, bufs, 0);
    assert p[0..] == p;
    assert forall x :: x in p ==> x in free;
    forall x | x in free ensures x !in c.idxs {
      FreeApart(free, live, |desc|, k, x);
    }
    LiveDistinct(free, live, |desc|, k);
    var desc' := WriteChain(desc, head, bufs, 0).0;
    forall j | 0 <= j < |c.idxs| ensures desc'[c.idxs[j]] == desc[c.idxs[j]] {
      assert c.idxs[j] in c.idxs;
    }
    assert head == p[0] && Head(c) in c.idxs;
    ChainFrame(desc, descx, desc', descx[head := DescExtra(cookie, |bufs|)], c);
  }

  lemma FreeFits(n: nat, free: seq<nat>, live: seq<Chain>)
    requires Partition(n, free, live)
    ensures |free| <= n && forall d :: d in free ==> d < n
  {
    assert |multiset(free)| <= |Range(n)|;
    assert forall d :: d in free ==> d in multiset(free) && d in Range(n);
  }

  lemma AddPartition(n: nat, free: seq<nat>, live: seq<Chain>, bufs: seq<Buf>, cookie: nat)
    requires Partition(n, free, live) && |bufs| <= |free|
    ensures Partition(n, free[|bufs|..], [NewChain(free, bufs, cookie)] + live)
  {
    assert free == free[..|bufs|] + free[|bufs|..];
    assert ([NewChain(free, bufs, cookie)] + live)[1..] == live;
  }

  lemma AddChains(desc: seq<Desc>, descx: seq<DescExtra>, head: u16, free: seq<nat>,
                  live: seq<Chain>, bufs: seq<Buf>, cookie: nat)
    requires Own(desc, descx, head, |free|, free, live)
    requires 0 < |bufs| <= |free| <= CHAIN_END
    ensures head < |desc|
    ensures var desc' := WriteChain(desc, head, bufs, 0).0;
            AllOk(desc', descx[head := DescExtra(cookie, |bufs|)], [NewChain(free, bufs, cookie)] + live)
  {
    NewChainOk(desc, descx, head, free, live, bufs, cookie);
    forall k | 0 <= k < |live|
      ensures ChainOk(WriteChain(desc, head, bufs, 0).0, descx[head := DescExtra(cookie, |bufs|)], live[k])
    {
      AddOthers(desc, descx, head, free, live, bufs, cookie, k);
    }
  }

  lemma AddQuiet(descx: seq<DescExtra>, live: seq<Chain>, c: Chain, k: u16)
    requires c.idxs != [] && Head(c) < |descx|
    requires Quiet(descx, live)
    ensures Quiet(descx[Head(c) := DescExtra(c.cookie, k)], [c] + live)
  {
    var descx' := descx[Head(c) := DescExtra(c.cookie, k)];
    var live' := [c] + live;
    forall i | 0 <= i < |descx'| && !Heads(live', i) ensures descx'[i] == DescExtra(0, 0) {
      assert c in live';
      assert forall c' :: c' in live ==> c' in live';
      assert !Heads(live, i);
    }
  }

  /** Adding a buffer takes the first |bufs| links of the free chain for the new chain. */
  lemma OwnAdd(desc: seq<Desc>, descx: seq<DescExtra>, head: u16, free: seq<nat>,
               live: seq<Chain>, bufs: seq<Buf>, cookie: nat)
    requires Own(desc, descx, head, |free|, free, live)
    requires 0 < |bufs| <= |free|
    ensures head < |desc| && |free| <= CHAIN_END
    ensures var (desc', head') := WriteChain(desc, head, bufs, 0);
            Own(desc', descx[head := DescExtra(cookie, |bufs|)], head', |free| - |bufs|,
                free[|bufs|..], [NewChain(free, bufs, cookie)] + live)
  {
    var c := NewChain(free, bufs, cookie);
    FreeFits(|desc|, free, live);
    AddChains(desc, descx, head, free, live, bufs, cookie);
    AddFree(desc, descx, head, free, live, bufs);
    AddPartition(|desc|, free, live, bufs, cookie);
    AddQuiet(descx, live, c, |bufs|);
  }

  lemma MinusMinus(x: u16, a: int, b: int)
    ensures Minus(Minus(x, a), b) == Minus(x, a + b)
  {
    var y := x - a;
    assert (y % W16) == y + (-(y / W16)) * W16;
    ModShift(y - b, W16, -(y / W16));
  }

  /** Following NEXT from link j of a chain ends on its last link. */
  lemma {:induction false} ChainEndAlong(desc: seq<Desc>, descx: seq<DescExtra>, c: Chain, j: nat,
                                         left: u16, fuel: nat)
    requires ChainOk(desc, descx, c) && |desc| <= CHAIN_END
    requires j < |c.idxs| <= fuel + j + 1
    ensures c.idxs[j] < |desc|
    ensures ChainEnd(desc, c.idxs[j], left, fuel)
         == (c.idxs[|c.idxs| - 1], Minus(left, |c.idxs| - 1 - j))
    decreases fuel
  {
    assert LinkOk(desc, c, j);
    LinkFlagsBits(j + 1 < |c.idxs|, c.bufs[j].write);
    if j + 1 < |c.idxs| {
      assert LinkOk(desc, c, j + 1);
      ChainEndAlong(desc, descx, c, j + 1, Minus(left, 1), fuel - 1);
      MinusMinus(left, 1, |c.idxs| - 2 - j);
    }
  }

  lemma ChainFits(free: seq<nat>, live: seq<Chain>, n: nat, k: nat)
    requires Partition(n, free, live) && k < |live|
    ensures |live[k].idxs| + |free| <= n
  {
    SumRemove(live, k);
    assert Range(n) == multiset(free) + multiset(live[k].idxs) + Sum(live[..k] + live[k + 1..]);
    assert |multiset(free) + multiset(live[k].idxs)| <= |Range(n)|;
  }

  function Last(c: Chain): nat
    requires c.idxs != []
  {
    c.idxs[|c.idxs| - 1]
  }

  /** The walk stays in the table and the countdown of descriptors ends at zero. */
  lemma FreeChainEffect(desc: seq<Desc>, drv: Driver, c: Chain)
    requires ChainOk(desc, drv.descx, c) && |drv.descx| == |desc|
    requires |c.idxs| <= |desc| <= CHAIN_END
    ensures Head(c) < |desc| && Last(c) < |desc|
    ensures FreeChain(desc, drv, Head(c)).0 == desc[Last(c) := desc[Last(c)].(next := drv.head)]
    ensures FreeChain(desc, drv, Head(c)).1
         == drv.(freeCnt := (drv.freeCnt + |c.idxs|) % W16, head := Head(c),
                 descx := drv.descx[Head(c) := DescExtra(c.cookie, 0)])
  {
    assert LinkOk(desc, c, 0) && LinkOk(desc, c, |c.idxs| - 1);
    LinkFlagsBits(0 + 1 < |c.idxs|, c.bufs[0].write);
    ChainEndAlong(desc, drv.descx, c, 0, |c.idxs| - 1, |desc|);
  }

  lemma UpdateTwice<T>(s: seq<T>, i: nat, x: T, y: T)
    requires i < |s|
    ensures s[i := x][i := y] == s[i := y]
  {
  }

  /** What reclaiming a chain writes: one `next`, one cookie, the head and the count. */
  lemma ReclaimEffect(desc: seq<Desc>, drv: Driver, free: seq<nat>, live: seq<Chain>, k: nat)
    requires Own(desc, drv.descx, drv.head, drv.freeCnt, free, live) && k < |live|
    ensures 0 < |live[k].idxs| && Head(live[k]) < |desc| && |live[k].idxs| + |free| <= |desc|
    ensures Last(live[k]) < |desc|
    ensures Reclaim(desc, drv, Head(live[k]))
         == (desc[Last(live[k]) := desc[Last(live[k])].(next := drv.head)],
             drv.(freeCnt := |free| + |live[k].idxs|, head := Head(live[k]),
                  descx := drv.descx[Head(live[k]) := DescExtra(0, 0)]),
             live[k].cookie)
  {
    var c := live[k];
    assert ChainOk(desc, drv.descx, c);
    ChainFits(free, live, |desc|, k);
    FreeChainEffect(desc, drv, c);
    UpdateTwice(drv.descx, Head(c), DescExtra(c.cookie, 0), DescExtra(0, 0));
  }

  lemma FreeOthers(desc: seq<Desc>, drv: Driver, free: seq<nat>, live: seq<Chain>, k: nat, m: nat)
    requires Own(desc, drv.descx, drv.head, drv.freeCnt, free, live)
    requires k < |live| && m < |live| && m != k
    ensures 0 < |live[k].idxs| && Head(live[k]) < |desc|
    ensures var (desc', drv', _) := Reclaim(desc, drv, Head(live[k]));
            ChainOk(desc', drv'.descx, live[m])
  {
    ReclaimEffect(desc, drv, free, live, k);
    var c, c' := live[k], live[m];
    var last := Last(c);
    assert last in c.idxs && Head(c) in c.idxs;
    LiveApart(free, live, |desc|, k, m, last);
    LiveApart(free, live, |desc|, k, m, Head(c));
    LiveDistinct(free, live, |desc|, m);
    var (desc', drv', _) := Reclaim(desc, drv, Head(c));
    assert c' in live;
    ChainFrame(desc, drv.descx, desc', drv'.descx, c');
  }

  lemma JoinLists(desc: seq<Desc>, p: seq<nat>, head: u16, free: seq<nat>)
    requires Path(desc, p) && p != [] && FreeList(desc, head, free)
    requires forall d :: d in p ==> d !in free
    ensures FreeList(desc[p[|p| - 1] := desc[p[|p| - 1]].(next := head)], p[0], p + free)
  {
    var last := p[|p| - 1];
    var desc' := desc[last := desc[last].(next := head)];
    var f := p + free;
    assert last in p;
    forall j | 0 <= j < |f| ensures f[j] < |desc'| && desc'[f[j]].next == At(f, j + 1) {
      if j >= |p| {
        assert f[j] == free[j - |p|] && free[j - |p|] in free;
        assert desc[f[j]].next == At(free, j - |p| + 1);
      }
    }
  }

  lemma FreeBack(desc: seq<Desc>, drv: Driver, free: seq<nat>, live: seq<Chain>, k: nat)
    requires Own(desc, drv.descx, drv.head, drv.freeCnt, free, live) && k < |live|
    ensures 0 < |live[k].idxs| && Head(live[k]) < |desc|
    ensures var (desc', drv', _) := Reclaim(desc, drv, Head(live[k]));
            FreeList(desc', drv'.head, live[k].idxs + free)
  {
    ReclaimEffect(desc, drv, free, live, k);
    var c := live[k];
    assert c in live;
    LiveDistinct(free, live, |desc|, k);
    forall d | d in free ensures d !in c.idxs { FreeApart(free, live, |desc|, k, d); }
    forall j | 0 <= j < |c.idxs| - 1 ensures desc[c.idxs[j]].next == c.idxs[j + 1] {
      assert LinkOk(desc, c, j);
    }
    JoinLists(desc, c.idxs, drv.head, free);
  }

  lemma StillHead(live: seq<Chain>, k: nat, i: nat)
    requires k < |live| && live[k].idxs != [] && Head(live[k]) != i
    requires Heads(live, i)
    ensures Heads(live[..k] + live[k + 1..], i)
  {
    var rest := live[..k] + live[k + 1..];
    var c :| c in live && c.idxs != [] && Head(c) == i;
    var m :| 0 <= m < |live| && live[m] == c;
    assert m != k && rest[if m < k then m else m - 1] == c;
  }

  lemma FreeQuiet(descx: seq<DescExtra>, live: seq<Chain>, k: nat)
    requires k < |live| && live[k].idxs != [] && Head(live[k]) < |descx|
    requires Quiet(descx, live)
    ensures Quiet(descx[Head(live[k]) := DescExtra(0, 0)], live[..k] + live[k + 1..])
  {
    forall i | 0 <= i < |descx| && i != Head(live[k]) && Heads(live, i)
      ensures Heads(live[..k] + live[k + 1..], i)
    {
      StillHead(live, k, i);
    }
  }

  lemma FreeChains(desc: seq<Desc>, drv: Driver, free: seq<nat>, live: seq<Chain>, k: nat)
    requires Own(desc, drv.descx, drv.head, drv.freeCnt, free, live) && k < |live|
    ensures 0 < |live[k].idxs| && Head(live[k]) < |desc|
    ensures var (desc', drv', _) := Reclaim(desc, drv, Head(live[k]));
            AllOk(desc', drv'.descx, live[..k] + live[k + 1..])
  {
    ReclaimEffect(desc, drv, free, live, k);
    forall m | 0 <= m < |live| && m != k
      ensures var (desc', drv', _) := Reclaim(desc, drv, Head(live[k])); ChainOk(desc', drv'.descx, live[m])
    {
      FreeOthers(desc, drv, free, live, k, m);
    }
  }

  /** Reclaiming a chain puts its links in front of the free chain, in whatever order the
      peer returns chains. */
  lemma OwnFree(desc: seq<Desc>, drv: Driver, free: seq<nat>, live: seq<Chain>, k: nat)
    requires Own(desc, drv.descx, drv.head, drv.freeCnt, free, live) && k < |live|
    ensures 0 < |live[k].idxs| && Head(live[k]) < |desc|
    ensures var (desc', drv', cookie) := Reclaim(desc, drv, Head(live[k]));
            && cookie == live[k].cookie
            && drv'.usedCons == drv.usedCons && drv'.queued == drv.queued
            && Own(desc', drv'.descx, drv'.head, drv'.freeCnt,
                   live[k].idxs + free, live[..k] + live[k + 1..])
  {
    ReclaimEffect(desc, drv, free, live, k);
    FreeBack(desc, drv, free, live, k);
    FreeQuiet(drv.descx, live, k);
    FreeChains(desc, drv, free, live, k);
    SumRemove(live, k);
  }
}
