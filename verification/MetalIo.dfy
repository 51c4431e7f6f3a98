/** Address translation of include/metal-compat.h: a virtual region mapped page by page to
    physical memory, and the search that maps a physical address back. */
module MetalIo {
  import opened Words

  /** METAL_BAD_OFFSET and METAL_BAD_PHYS. */
  const BAD: u64 := 0xFFFF_FFFF_FFFF_FFFF

  const NULL: u64 := 0

  /** A null physmap is the empty sequence. */
  datatype Region = Region(virt: u64, physmap: seq<u64>, size: u64, shift: nat, mask: u64)

  function Shr(x: nat, k: nat): (r: nat)
    ensures r <= x
  {
    if k == 0 then x else Shr(x / 2, k - 1)
  }

  function Exp2(k: nat): (p: nat)
    ensures p > 0
  {
    if k == 0 then 1 else 2 * Exp2(k - 1)
  }

  lemma {:induction false} Exp2IsPow2(k: nat)
    ensures Pow2(Exp2(k))
  {
    if k > 0 { Exp2IsPow2(k - 1); }
  }

  lemma HalfDiv(x: nat, p: nat)
    requires p > 0
    ensures (x / 2) / p == x / (2 * p)
  {
    var q, r := (x / 2) / p, (x / 2) % p;
    assert x / 2 == q * p + r && q * (2 * p) == 2 * (q * p);
    DivModUnique(x, 2 * p, q, 2 * r + x % 2);
  }

  lemma {:induction false} ShrIsDiv(x: nat, k: nat)
    ensures Shr(x, k) == x / Exp2(k)
  {
    if k > 0 {
      ShrIsDiv(x / 2, k - 1);
      HalfDiv(x, Exp2(k - 1));
    }
  }

  /** The table entry for an offset is inside the table. */
  predicate EntryExists(io: Region, offset: u64) {
    io.physmap != [] && offset <= io.size ==> Shr(offset, io.shift) < |io.physmap|
  }

  function Virt(io: Region, offset: u64): u64 {
    if offset <= io.size then (io.virt + offset) % W64 else NULL
  }

  function VirtToOffset(io: Region, virt: u64): u64 {
    var offset := (virt - io.virt) % W64;
    if offset < io.size then offset else BAD
  }

  function Phys(io: Region, offset: u64): u64
    requires EntryExists(io, offset)
  {
    var page := Shr(offset, io.shift);
    if io.physmap != [] && offset <= io.size && io.physmap[page] != BAD
    then (io.physmap[page] + And(offset, io.mask)) % W64
    else BAD
  }

  /** Behind the end of the region, in an unmapped page, or without a map nothing is mapped. */
  lemma UnmappedIsBad(io: Region, offset: u64)
    requires EntryExists(io, offset)
    requires io.physmap == [] || offset > io.size || io.physmap[Shr(offset, io.shift)] == BAD
    ensures Phys(io, offset) == BAD
  {
  }

  // ----- regions the search is meant for

  predicate Single(io: Region) { io.mask == BAD }

  /** Pages of equal power-of-two size, each mapped to an aligned page of its own; the last
      page may be partly used, and the region does not touch the top of the offset range. */
  predicate Paged(io: Region) {
    && io.shift < 64 && io.mask == Exp2(io.shift) - 1
    && io.physmap != [] && io.size <= |io.physmap| * (io.mask + 1) && io.size + io.mask + 1 <= W64
    && (forall p :: 0 <= p < |io.physmap| ==> io.physmap[p] != BAD && io.physmap[p] % (io.mask + 1) == 0)
    && (forall p, q :: 0 <= p < q < |io.physmap| ==> io.physmap[p] != io.physmap[q])
  }

  /** Every offset of the region shifts down to page 0. */
  predicate FirstPageOnly(io: Region) { io.size < Exp2(io.shift) }

  /** One page of any size, with no mask. */
  predicate OnePage(io: Region) {
    Single(io) && FirstPageOnly(io) && io.physmap != [] && io.physmap[0] != BAD
  }

  predicate WellFormed(io: Region) { io.size < BAD && (OnePage(io) || (!Single(io) && Paged(io))) }

  lemma {:induction false} ShiftedOut(x: nat, k: nat, m: nat)
    requires x < Exp2(m) && k >= m
    ensures Shr(x, k) == 0
  {
    if m > 0 {
      ShiftedOut(x / 2, k - 1, m - 1);
    } else if k > 0 {
      ShiftedOut(0, k - 1, 0);
    }
  }

  lemma {:induction false} Exp2Add(a: nat, b: nat)
    ensures Exp2(a + b) == Exp2(a) * Exp2(b)
  {
    if a > 0 {
      Exp2Add(a - 1, b);
      assert Exp2(a + b) == 2 * (Exp2(a - 1) * Exp2(b));
    }
  }

  lemma Squared(a: nat, v: nat)
    requires Exp2(a) == v
    ensures Exp2(a + a) == v * v
  {
    Exp2Add(a, a);
  }

  lemma Exp2Of64()
    ensures Exp2(64) == W64
  {
    assert Exp2(4) == 16;
    Squared(4, 16);
    Squared(8, 256);
    Squared(16, 0x1_0000);
    Squared(32, 0x1_0000_0000);
  }

  /** Shifting by the width of an address, or more, leaves page 0 for regions of any size. */
  lemma WideShift(io: Region)
    requires io.shift >= 64
    ensures FirstPageOnly(io)
  {
    Exp2Of64();
    Exp2Add(64, io.shift - 64);
    MulMonotone(Exp2(io.shift - 64), W64);
  }

  lemma AllOnes(x: u64)
    ensures And(x, BAD) == x
  {
    W64IsPow2();
    MaskIsMod(x, W64);
  }

  /** What Phys computes in a region of one page. */
  lemma OnePagePhys(io: Region, offset: u64)
    requires Single(io) && FirstPageOnly(io)
    ensures EntryExists(io, offset)
    ensures io.physmap != [] ==>
              Phys(io, offset) == if offset <= io.size && io.physmap[0] != BAD
                                  then (io.physmap[0] + offset) % W64 else BAD
  {
    if offset <= io.size { ShiftedOut(offset, io.shift, io.shift); }
    AllOnes(offset);
  }

  /** The page an offset is in. */
  function PageOf(offset: nat, p: nat): nat
    requires p > 0
  {
    offset / p
  }

  lemma PagedBits(io: Region, x: u64)
    requires io.shift < 64 && io.mask == Exp2(io.shift) - 1
    ensures Shr(x, io.shift) == PageOf(x, io.mask + 1) && And(x, io.mask) == x % (io.mask + 1)
  {
    ShrIsDiv(x, io.shift);
    Exp2IsPow2(io.shift);
    MaskIsMod(x, io.mask + 1);
  }

  lemma QuotientOf(x: nat, p: nat) returns (q: nat)
    requires p > 0 && x % p == 0
    ensures x == q * p
  {
    q := x / p;
  }

  lemma RoomAbove(q: nat, off: nat, p: nat, k: nat)
    requires p > 0 && off < p && q * p < k * p
    ensures q * p + off < k * p
  {
    LessByProduct(q, k, p);
    assert (q + 1) * p == q * p + p;
  }

  /** An aligned page does not run over the top of the address space. */
  lemma AlignedSum(base: u64, off: nat, p: nat)
    requires Pow2(p) && p <= W64 && base % p == 0 && off < p
    ensures base + off < W64
  {
    W64IsPow2();
    var k := Pow2Divides(p, W64);
    var q := QuotientOf(base, p);
    RoomAbove(q, off, p, k);
  }

  lemma PhysAt(io: Region, offset: u64, page: nat, off: nat, p: nat)
    requires Shr(offset, io.shift) == page < |io.physmap| && And(offset, io.mask) == off
    requires offset <= io.size && io.physmap[page] != BAD
    requires p == Exp2(io.shift) <= W64 && off < p && io.physmap[page] % p == 0
    ensures Phys(io, offset) == io.physmap[page] + off
  {
    Exp2IsPow2(io.shift);
    AlignedSum(io.physmap[page], off, p);
  }

  lemma PageInRange(offset: nat, p: nat, size: nat, pages: nat)
    requires p > 0 && pages > 0 && size <= pages * p
    requires offset < size || offset < p
    ensures PageOf(offset, p) < pages
  {
    if offset < p {
      DivModUnique(offset, p, 0, offset);
    } else {
      LessByProduct(offset / p, pages, p);
    }
  }

  /** What Phys computes in a paged region, for the offsets the search looks at. */
  lemma PagedPhys(io: Region, offset: u64)
    requires Paged(io) && (offset < io.size || offset <= io.mask)
    ensures EntryExists(io, offset)
    ensures offset <= io.size ==>
              && PageOf(offset, io.mask + 1) < |io.physmap|
              && Phys(io, offset) == io.physmap[PageOf(offset, io.mask + 1)] + offset % (io.mask + 1)
    ensures offset > io.size ==> Phys(io, offset) == BAD
  {
    PagedBits(io, offset);
    var page, off := PageOf(offset, io.mask + 1), offset % (io.mask + 1);
    if offset <= io.size {
      PageInRange(offset, io.mask + 1, io.size, |io.physmap|);
      PhysAt(io, offset, page, off, io.mask + 1);
    }
  }

  // ----- the search

  /** Where the search begins. */
  function First(io: Region, phys: u64): u64
    requires Single(io) ==> io.physmap != []
  {
    if io.mask == BAD then (phys - io.physmap[0]) % W64 else And(phys, io.mask)
  }

  function Next(io: Region, offset: u64): u64 { (offset + io.mask + 1) % W64 }

  /** The offsets the search visits. */
  predicate Candidate(io: Region, phys: u64, offset: u64)
    requires WellFormed(io)
  {
    if Single(io) then offset == (phys - io.physmap[0]) % W64
    else offset % (io.mask + 1) == phys % (io.mask + 1) && (offset < io.size || offset <= io.mask)
  }

  lemma FirstIsCandidate(io: Region, phys: u64)
    requires WellFormed(io)
    ensures Candidate(io, phys, First(io, phys))
    ensures !Single(io) ==> First(io, phys) == phys % (io.mask + 1)
  {
    if !Single(io) {
      Exp2IsPow2(io.shift);
      MaskIsMod(phys, io.mask + 1);
      DivModUnique(phys % (io.mask + 1), io.mask + 1, 0, phys % (io.mask + 1));
    }
  }

  lemma CandidateExists(io: Region, phys: u64, offset: u64)
    requires WellFormed(io) && Candidate(io, phys, offset)
    ensures EntryExists(io, offset)
  {
    if Single(io) { OnePagePhys(io, offset); } else { PagedPhys(io, offset); }
  }

  lemma TwoFit(k: nat, p: nat, w: nat)
    requires w == k * p && 0 < p < w
    ensures 2 * p <= w
  {
    LessByProduct(1, k, p);
  }

  lemma PageHalves(io: Region)
    requires !Single(io) && Paged(io)
    ensures 2 * (io.mask + 1) <= W64
  {
    Exp2IsPow2(io.shift);
    W64IsPow2();
    var k := Pow2Divides(io.mask + 1, W64);
    TwoFit(k, io.mask + 1, W64);
  }

  lemma StrideOn(io: Region, phys: u64, offset: u64)
    requires !Single(io) && Paged(io) && 2 * (io.mask + 1) <= W64
    requires offset % (io.mask + 1) == phys % (io.mask + 1) && (offset < io.size || offset <= io.mask)
    ensures Next(io, offset) == offset + io.mask + 1
    ensures Next(io, offset) % (io.mask + 1) == phys % (io.mask + 1)
  {
    ModShift(offset, io.mask + 1, 1);
  }

  lemma AddBack(b: u64, x: u64)
    ensures (b + (x - b) % W64) % W64 == x
    ensures ((x - b) % W64 + W64) % W64 == (x - b) % W64
  {
  }

  /** In a region of one page the first candidate either matches or is out of range, so that
      the search ends although its stride is zero. */
  lemma OnePageHit(io: Region, phys: u64)
    requires OnePage(io)
    ensures var o := First(io, phys);
            && EntryExists(io, o) && Next(io, o) == o
            && (o <= io.size ==> Phys(io, o) == phys)
  {
    OnePagePhys(io, First(io, phys));
    ModShift(phys, W64, 1);
    var o := First(io, phys);
    AddBack(io.physmap[0], phys);
  }

  /** The search goes on only to a later candidate. */
  lemma NextIsCandidate(io: Region, phys: u64, offset: u64)
    requires WellFormed(io) && Candidate(io, phys, offset)
    requires EntryExists(io, offset) && Phys(io, offset) != phys && Next(io, offset) < io.size
    ensures !Single(io) && Next(io, offset) == offset + io.mask + 1
    ensures Candidate(io, phys, Next(io, offset))
  {
    if Single(io) {
      OnePageHit(io, phys);
    } else {
      PageHalves(io);
      StrideOn(io, phys, offset);
    }
  }

  /** The do-while search from a candidate on. */
  function Scan(io: Region, phys: u64, offset: u64): u64
    requires WellFormed(io) && Candidate(io, phys, offset)
    decreases W64 - offset
  {
    CandidateExists(io, phys, offset);
    if Phys(io, offset) == phys then offset
    else if Next(io, offset) < io.size then
      NextIsCandidate(io, phys, offset);
      Scan(io, phys, Next(io, offset))
    else BAD
  }

  function PhysToOffset(io: Region, phys: u64): u64
    requires WellFormed(io)
  {
    FirstIsCandidate(io, phys);
    Scan(io, phys, First(io, phys))
  }

  // ----- what the search finds

  lemma {:induction false} ScanFinds(io: Region, phys: u64, offset: u64)
    requires WellFormed(io) && Candidate(io, phys, offset)
    ensures var r := Scan(io, phys, offset);
            r != BAD ==> Candidate(io, phys, r) && EntryExists(io, r) && Phys(io, r) == phys && offset <= r
    decreases W64 - offset
  {
    CandidateExists(io, phys, offset);
    if Phys(io, offset) != phys && Next(io, offset) < io.size {
      NextIsCandidate(io, phys, offset);
      ScanFinds(io, phys, Next(io, offset));
    }
  }

  lemma StrideReaches(a: nat, b: nat, p: nat)
    requires p > 0 && a < b && a % p == b % p
    ensures a + p <= b
  {
    if b < a + p { ModDistinct(a, b, p); }
  }

  lemma StepTowards(io: Region, phys: u64, offset: u64, o: u64)
    requires WellFormed(io) && Candidate(io, phys, offset) && Candidate(io, phys, o)
    requires offset < o < io.size
    ensures Next(io, offset) == offset + io.mask + 1 <= o
    ensures Candidate(io, phys, Next(io, offset))
  {
    StrideReaches(offset, o, io.mask + 1);
    ModShift(offset, io.mask + 1, 1);
  }

  /** Every candidate in range that comes after the start is found, unless an earlier one
      matches. */
  lemma {:induction false} ScanReaches(io: Region, phys: u64, offset: u64, o: u64)
    requires WellFormed(io) && Candidate(io, phys, offset) && Candidate(io, phys, o)
    requires offset <= o < io.size && EntryExists(io, o) && Phys(io, o) == phys
    ensures Scan(io, phys, offset) <= o
    decreases W64 - offset
  {
    CandidateExists(io, phys, offset);
    if Phys(io, offset) != phys {
      StepTowards(io, phys, offset, o);
      ScanReaches(io, phys, Next(io, offset), o);
    }
  }

  lemma InRangeExists(io: Region, o: u64)
    requires WellFormed(io) && (o < io.size || o == BAD)
    ensures EntryExists(io, o)
  {
    if o < io.size {
      if Single(io) { OnePagePhys(io, o); } else { PagedPhys(io, o); }
    }
  }

  lemma SplitSame(x: nat, p: nat, a: nat, r: nat, b: nat, s: nat)
    requires p > 0 && a % p == 0 && b % p == 0 && r < p && s < p
    requires x == a + r == b + s
    ensures a == b && r == s && x % p == r
  {
    DivModUnique(x, p, a / p, r);
    DivModUnique(x, p, b / p, s);
  }

  lemma SameParts(a: nat, b: nat, p: nat)
    requires p > 0 && a / p == b / p && a % p == b % p
    ensures a == b
  {
    assert a == (a / p) * p + a % p && b == (b / p) * p + b % p;
  }

  lemma SamePage(physmap: seq<u64>, i: nat, j: nat)
    requires i < |physmap| && j < |physmap| && physmap[i] == physmap[j]
    requires forall i, j :: 0 <= i < j < |physmap| ==> physmap[i] != physmap[j]
    ensures i == j
  {
  }

  lemma PageApart(physmap: seq<u64>, p: nat, a: nat, b: nat, x: nat)
    requires p > 0 && PageOf(a, p) < |physmap| && PageOf(b, p) < |physmap|
    requires forall i :: 0 <= i < |physmap| ==> physmap[i] % p == 0
    requires forall i, j :: 0 <= i < j < |physmap| ==> physmap[i] != physmap[j]
    requires x == physmap[PageOf(a, p)] + a % p == physmap[PageOf(b, p)] + b % p
    ensures a == b
  {
    var pa, ra := a / p, a % p;
    var pb, rb := b / p, b % p;
    SplitSame(x, p, physmap[pa], ra, physmap[pb], rb);
    SamePage(physmap, pa, pb);
    SameParts(a, b, p);
  }

  lemma SameShift(m: u64, a: u64, b: u64)
    requires (m + a) % W64 == (m + b) % W64
    ensures a == b
  {
  }

  /** Distinct offsets have distinct physical addresses. */
  lemma PhysInjective(io: Region, a: u64, b: u64)
    requires WellFormed(io) && a < io.size && b < io.size
    requires EntryExists(io, a) && EntryExists(io, b) && Phys(io, a) == Phys(io, b)
    ensures a == b
  {
    if Single(io) {
      OnePagePhys(io, a);
      OnePagePhys(io, b);
      SameShift(io.physmap[0], a, b);
    } else {
      PagedPhys(io, a);
      PagedPhys(io, b);
      PageApart(io.physmap, io.mask + 1, a, b, Phys(io, a));
    }
  }

  lemma RemainderLe(o: nat, p: nat)
    requires p > 0
    ensures o % p <= o
  {
    if o < p { DivModUnique(o, p, 0, o); }
  }

  lemma PagedRemainder(m: nat, o: nat, p: nat)
    requires p > 0 && m % p == 0
    ensures (m + o % p) % p == o % p <= o
  {
    SplitSame(m + o % p, p, m, o % p, m, o % p);
    RemainderLe(o, p);
  }

  lemma TakeAway(m: u64, o: u64)
    ensures ((m + o) % W64 - m) % W64 == o
  {
  }

  lemma PagedMatch(io: Region, phys: u64, o: u64, p: nat)
    requires Paged(io) && o < io.size && EntryExists(io, o) && Phys(io, o) == phys && p == io.mask + 1
    ensures phys % p == o % p <= o
  {
    PagedPhys(io, o);
    PagedRemainder(io.physmap[PageOf(o, p)], o, p);
  }

  lemma SingleMatch(io: Region, phys: u64, o: u64)
    requires OnePage(io) && o < io.size && EntryExists(io, o) && Phys(io, o) == phys
    ensures (phys - io.physmap[0]) % W64 == o
  {
    OnePagePhys(io, o);
    TakeAway(io.physmap[0], o);
  }

  lemma MatchIsCandidate(io: Region, phys: u64, o: u64)
    requires WellFormed(io) && o < io.size && EntryExists(io, o) && Phys(io, o) == phys
    ensures Candidate(io, phys, o) && First(io, phys) <= o
  {
    FirstIsCandidate(io, phys);
    if Single(io) {
      SingleMatch(io, phys, o);
    } else {
      PagedMatch(io, phys, o, io.mask + 1);
    }
  }

  /** The search inverts Phys: it returns an offset in range exactly when that offset has
      the physical address. */
  lemma OffsetIff(io: Region, phys: u64, o: u64)
    requires WellFormed(io) && o < io.size
    ensures EntryExists(io, o)
    ensures PhysToOffset(io, phys) == o <==> Phys(io, o) == phys
  {
    InRangeExists(io, o);
    FirstIsCandidate(io, phys);
    ScanFinds(io, phys, First(io, phys));
    if Phys(io, o) == phys {
      MatchIsCandidate(io, phys, o);
      ScanReaches(io, phys, First(io, phys), o);
      PhysInjective(io, PhysToOffset(io, phys), o);
    }
  }

  /** The offset in range has the address. */
  predicate MapsTo(io: Region, phys: u64, o: u64) { o < io.size && EntryExists(io, o) && Phys(io, o) == phys }

  /** The address follows on the last of a region that does not fill its first page. */
  predicate JustPast(io: Region, phys: u64)
    requires WellFormed(io)
  {
    io.size <= io.mask && phys == (io.physmap[0] + io.size) % W64
  }

  lemma OnePastSingle(io: Region, phys: u64)
    requires WellFormed(io) && Single(io) && phys != BAD
    ensures PhysToOffset(io, phys) == io.size <==> JustPast(io, phys)
  {
    OnePageHit(io, phys);
    OnePagePhys(io, io.size);
    TakeAway(io.physmap[0], io.size);
    AddBack(io.physmap[0], phys);
  }

  lemma ShortPage(io: Region)
    requires WellFormed(io) && !Single(io) && io.size <= io.mask
    ensures EntryExists(io, io.size) && Phys(io, io.size) == io.physmap[0] + io.size < W64
    ensures (io.physmap[0] + io.size) % (io.mask + 1) == io.size
  {
    var p, m := io.mask + 1, io.physmap[0];
    PagedPhys(io, io.size);
    DivModUnique(io.size, p, 0, io.size);
    SplitSame(m + io.size, p, m, io.size, m, io.size);
  }

  lemma Fits(x: nat)
    requires x < W64
    ensures x % W64 == x
  {
  }

  lemma FoundIsPast(io: Region, phys: u64)
    requires WellFormed(io) && !Single(io) && phys != BAD && PhysToOffset(io, phys) == io.size
    ensures JustPast(io, phys)
  {
    FirstIsCandidate(io, phys);
    ScanFinds(io, phys, First(io, phys));
    ShortPage(io);
    Fits(io.physmap[0] + io.size);
  }

  lemma PastIsFound(io: Region, phys: u64)
    requires WellFormed(io) && !Single(io) && JustPast(io, phys)
    ensures PhysToOffset(io, phys) == io.size
  {
    ShortPage(io);
    Fits(io.physmap[0] + io.size);
    FirstIsCandidate(io, phys);
    assert First(io, phys) == io.size;
  }

  lemma OnePastPaged(io: Region, phys: u64)
    requires WellFormed(io) && !Single(io) && phys != BAD
    ensures PhysToOffset(io, phys) == io.size <==> JustPast(io, phys)
  {
    if JustPast(io, phys) {
      PastIsFound(io, phys);
    } else if PhysToOffset(io, phys) == io.size {
      FoundIsPast(io, phys);
    }
  }

  /** An address other than the bad one is mapped in range and found there, or follows on the
      last of a region shorter than a page and is given the offset one past the end, or is
      rejected: exactly one of the three. */
  lemma SearchOutcome(io: Region, phys: u64)
    requires WellFormed(io) && phys != BAD
    ensures var r := PhysToOffset(io, phys);
            if r < io.size then MapsTo(io, phys, r) && !JustPast(io, phys)
            else
              && r == (if JustPast(io, phys) then io.size else BAD)
              && forall o: u64 :: !MapsTo(io, phys, o)
  {
    var r := PhysToOffset(io, phys);
    FirstIsCandidate(io, phys);
    ScanFinds(io, phys, First(io, phys));
    if Single(io) { OnePastSingle(io, phys); } else { OnePastPaged(io, phys); }
    forall o: u64 | MapsTo(io, phys, o) ensures r == o { OffsetIff(io, phys, o); }
    if r != BAD {
      if Single(io) { OnePagePhys(io, r); } else { PagedPhys(io, r); }
    }
  }

  function PhysToVirt(io: Region, phys: u64): u64
    requires WellFormed(io)
  {
    Virt(io, PhysToOffset(io, phys))
  }

  /** A region of 16 bytes in a page of 4096: the address behind its last byte is found. */
  lemma FoundPastTheEnd()
    ensures var io := Region(0, [0x1000], 16, 12, 0xFFF);
            WellFormed(io) && PhysToOffset(io, 0x1010) == io.size && PhysToVirt(io, 0x1010) == 16
  {
    var io := Region(0, [0x1000], 16, 12, 0xFFF);
    assert Exp2(12) == 0x1000;
    SearchOutcome(io, 0x1010);
    forall o: u64 | o < 16 ensures !MapsTo(io, 0x1010, o) { PagedPhys(io, o); }
  }

  // ----- the compositions

  function VirtToPhys(io: Region, virt: u64): u64
    requires WellFormed(io)
  {
    InRangeExists(io, VirtToOffset(io, virt));
    Phys(io, VirtToOffset(io, virt))
  }

  predicate InRegion(io: Region, virt: u64) { (virt - io.virt) % W64 < io.size }

  /** A pointer into the region survives the way through physical memory and back. */
  lemma RoundTrip(io: Region, virt: u64)
    requires WellFormed(io) && InRegion(io, virt)
    ensures PhysToVirt(io, VirtToPhys(io, virt)) == virt
  {
    var o := VirtToOffset(io, virt);
    OffsetIff(io, VirtToPhys(io, virt), o);
    AddBack(io.virt, virt);
  }

  /** A pointer outside the region is recorded as the bad address. */
  lemma OutsideIsBad(io: Region, virt: u64)
    requires WellFormed(io) && !InRegion(io, virt)
    ensures VirtToPhys(io, virt) == BAD
  {
  }

  /** The pointer found for an address other than the bad one: to the byte in the region that
      has the address, one past the end of a region shorter than a page, or none. */
  lemma PointerOutcome(io: Region, phys: u64)
    requires WellFormed(io) && phys != BAD
    ensures var v := PhysToVirt(io, phys);
            && (forall o: u64 :: MapsTo(io, phys, o) ==> v == (io.virt + o) % W64 && !JustPast(io, phys))
            && (JustPast(io, phys) ==> v == (io.virt + io.size) % W64)
            && ((forall o: u64 :: !MapsTo(io, phys, o)) && !JustPast(io, phys) ==> v == NULL)
  {
    SearchOutcome(io, phys);
    forall o: u64 | MapsTo(io, phys, o) ensures PhysToOffset(io, phys) == o { OffsetIff(io, phys, o); }
  }

  /** metal_io_phys_to_offset as the loop it is. */
  method SearchOffset(io: Region, phys: u64) returns (r: u64)
    requires WellFormed(io)
    ensures r == PhysToOffset(io, phys)
  {
    var offset: u64 := First(io, phys);
    FirstIsCandidate(io, phys);
    while true
      invariant Candidate(io, phys, offset)
      invariant Scan(io, phys, offset) == PhysToOffset(io, phys)
      decreases W64 - offset
    {
      CandidateExists(io, phys, offset);
      if Phys(io, offset) == phys {
        return offset;
      }
      var next := Next(io, offset);
      if !(next < io.size) {
        return BAD;
      }
      NextIsCandidate(io, phys, offset);
      offset := next;
    }
  }

  lemma AfterBad(phys: u64)
    ensures (phys - BAD) % W64 == if phys == BAD then 0 else phys + 1
  {
  }

  /** Without the demand that the only page of a one-page region is mapped, the loop runs for
      ever (its first offset is in range, does not match, and is its own successor) exactly
      when the page is not mapped and the address is below the size of the region less one. */
  lemma StuckIff(io: Region, phys: u64)
    requires Single(io) && FirstPageOnly(io) && io.physmap != []
    ensures var o := First(io, phys);
            && EntryExists(io, o)
            && ((Phys(io, o) != phys && Next(io, o) == o < io.size) <==> (io.physmap[0] == BAD && phys + 1 < io.size))
  {
    OnePagePhys(io, First(io, phys));
    AddBack(io.physmap[0], phys);
    if io.physmap[0] == BAD { AfterBad(phys); }
  }
}
