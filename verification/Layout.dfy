/** Where the parts of a vring lie in memory (include/virtio_ring.h): one function sizes the
    block, another places the parts in it. */
module Layout {
  import opened Words

  const DESC_SIZE: nat := 16
  const USED_ELEM_SIZE: nat := 8
  const HEADER: nat := 4   // flags and index of either ring
  const EVENT: nat := 2    // event index behind either ring

  /** (x + align - 1) & ~(align - 1) in unsigned long. */
  function AlignUp(x: u64, align: u64): u64
    requires align > 0
  {
    And((x + align - 1) % W64, W64 - 1 - (align - 1))
  }

  /** Conversion to a 32-bit int. */
  function ToInt(x: nat): int {
    if x % W32 < 0x8000_0000 then x % W32 else x % W32 - W32
  }

  /** vring_size. */
  function VringSize(num: u16, align: u64): int
    requires align > 0
  {
    var size := num * DESC_SIZE + (HEADER + num * 2 + EVENT);
    ToInt(AlignUp(size, align) + (HEADER + num * USED_ELEM_SIZE + EVENT))
  }

  datatype Placement = Placement(desc: u64, avail: u64, used: u64)

  /** vring_init. */
  function Place(base: u64, num: u16, align: u64): Placement
    requires align > 0 && base + num * DESC_SIZE + HEADER + num * 2 < W64
  {
    var avail := base + num * DESC_SIZE;
    Placement(base, avail, AlignUp(avail + HEADER + num * 2, align))
  }

  /** Masking with the complement rounds down. */
  lemma {:induction false} MaskOff(x: nat, a: nat, w: nat)
    requires Pow2(a) && Pow2(w) && a <= w && x < w
    ensures And(x, w - a) == x - x % a
  {
    if a == 1 {
      MaskIsMod(x, w);
      DivModUnique(x, w, 0, x);
    } else if x == 0 || w == a {
      DivModUnique(x, a, if w == a || x == 0 then 0 else 1, x);
    } else {
      MaskOff(x / 2, a / 2, w / 2);
      ModHalf(x, a / 2);
      assert (w - a) / 2 == w / 2 - a / 2 && (w - a) % 2 == 0;
    }
  }

  lemma MultipleBelow(y: nat, a: nat)
    requires a > 0
    ensures (y - y % a) % a == 0 && 0 <= y - y % a <= y < y - y % a + a
  {
    DivModUnique(y - y % a, a, y / a, 0);
  }

  lemma MaskOff64(y: u64, a: u64)
    requires Pow2(a)
    ensures And(y, W64 - a) == y - y % a
  {
    W64IsPow2();
    MaskOff(y, a, W64);
  }

  lemma Complement(y: u64, a: u64)
    requires a > 0
    ensures y % W64 == y && W64 - 1 - (a - 1) == W64 - a
  {
  }

  lemma RoundDown(y: u64, a: u64)
    requires Pow2(a)
    ensures And(y % W64, W64 - 1 - (a - 1)) == y - y % a
  {
    MaskOff64(y, a);
    Complement(y, a);
  }

  lemma AlignedBy(y: u64, a: u64)
    requires Pow2(a)
    ensures var r := And(y % W64, W64 - 1 - (a - 1)); r % a == 0 && r <= y < r + a
  {
    RoundDown(y, a);
    MultipleBelow(y, a);
  }

  /** Aligning gives the smallest multiple that is not below. */
  lemma AlignUpIs(x: u64, a: u64)
    requires Pow2(a) && x + a <= W64
    ensures AlignUp(x, a) % a == 0 && x <= AlignUp(x, a) < x + a
  {
    AlignedBy(x + a - 1, a);
  }

  /** The next multiple is unique. */
  lemma NextMultiple(x: int, a: int, y: int, z: int)
    requires a > 0 && x <= y < x + a && x <= z < x + a && y % a == 0 && z % a == 0
    ensures y == z
  {
    if y < z { ModDistinct(y, z, a); } else if z < y { ModDistinct(z, y, a); }
  }

  lemma EvenMultiple(x: nat, a: nat)
    requires a > 0 && a % 2 == 0 && x % a == 0
    ensures x % 2 == 0
  {
    assert x == 2 * ((a / 2) * (x / a));
  }

  lemma EvenStep(x: nat, a: nat, up: nat)
    requires Pow2(a) && x % 2 == 0 && x % a != 0 && up % a == 0 && x <= up < x + a
    ensures x + 2 <= up
  {
    if a > 1 { EvenMultiple(up, a); }
  }

  /** Two more bytes move the aligned end exactly when the end was aligned already. */
  lemma AlignTwoMore(x: u64, a: u64)
    requires Pow2(a) && x + 2 + a <= W64 && x % 2 == 0
    ensures AlignUp(x, a) == AlignUp(x + 2, a) <==> x % a != 0
  {
    AlignUpIs(x, a);
    AlignUpIs(x + 2, a);
    var up := AlignUp(x, a);
    if x % a == 0 {
      NextMultiple(x, a, x, up);
    } else {
      EvenStep(x, a, up);
      NextMultiple(x + 2, a, up, AlignUp(x + 2, a));
    }
  }

  lemma ShiftedMultiple(base: nat, y: nat, a: nat)
    requires a > 0 && base % a == 0 && y % a == 0
    ensures (base + y) % a == 0
  {
    var q := base / a;
    assert base == q * a;
    ModShift(y, a, q);
  }

  /** Aligning an offset from an aligned base aligns the address. */
  lemma AlignFromBase(base: u64, off: u64, a: u64)
    requires Pow2(a) && base % a == 0 && base + off + a <= W64
    ensures AlignUp(base + off, a) == base + AlignUp(off, a)
  {
    AlignUpIs(base + off, a);
    AlignUpIs(off, a);
    ShiftedMultiple(base, AlignUp(off, a), a);
    NextMultiple(base + off, a, AlignUp(base + off, a), base + AlignUp(off, a));
  }

  // ----- agreement

  /** End of the available ring without its used_event, from the base. */
  function AvailEnd(num: u16): nat { 18 * num + 4 }

  /** The block fits in memory and its size in an int. */
  predicate Fits(base: u64, num: u16, align: u64) {
    && Pow2(align) && base % align == 0 && num <= 0x8000 && align <= 0x4000_0000
    && base + num * 26 + 2 * HEADER + 2 * EVENT + align < W64
  }

  lemma SmallInt(x: nat)
    requires x < 0x8000_0000
    ensures ToInt(x) == x
  {
  }

  lemma SizeIs(num: u16, align: u64)
    requires Pow2(align) && num <= 0x8000 && align <= 0x4000_0000
    ensures VringSize(num, align) == AlignUp(AvailEnd(num) + EVENT, align) + HEADER + num * 8 + EVENT
  {
    AlignUpIs(AvailEnd(num) + EVENT, align);
    SmallInt(AlignUp(AvailEnd(num) + EVENT, align) + HEADER + num * 8 + EVENT);
  }

  lemma UsedAt(base: u64, num: u16, align: u64)
    requires Fits(base, num, align)
    ensures var p := Place(base, num, align);
            p.desc == base && p.avail == base + num * 16 && p.used == base + AlignUp(AvailEnd(num), align)
  {
    AlignFromBase(base, AvailEnd(num), align);
  }

  /** The used ring as placed ends, with its event index, where the size says, exactly when
      the available ring without its event index does not end on the alignment: the
      placement leaves that event index out of account and the size counts it. */
  lemma SizeAgreesIff(base: u64, num: u16, align: u64)
    requires Fits(base, num, align)
    ensures Place(base, num, align).used + 4 + num * 8 + 2 == base + VringSize(num, align)
            <==> AvailEnd(num) % align != 0
  {
    SizeIs(num, align);
    UsedAt(base, num, align);
    AlignTwoMore(AvailEnd(num), align);
  }

  lemma AlignMoves(end: u64, align: u64)
    requires Pow2(align) && end % 2 == 0 && end + align <= W64
    ensures end <= AlignUp(end, align)
    ensures end + 2 <= AlignUp(end, align) <==> end % align != 0
    ensures AlignUp(end, align) == end <==> end % align == 0
  {
    AlignUpIs(end, align);
    if end % align == 0 {
      NextMultiple(end, align, end, AlignUp(end, align));
    } else {
      EvenStep(end, align, AlignUp(end, align));
    }
  }

  /** Otherwise the used ring is placed on top of the event index of the available ring. */
  lemma UsedEventClearIff(base: u64, num: u16, align: u64)
    requires Fits(base, num, align)
    ensures var p := Place(base, num, align);
            var usedEvent := p.avail + 4 + num * 2;
            && p.desc + num * 16 == p.avail && usedEvent <= p.used
            && (usedEvent + 2 <= p.used <==> AvailEnd(num) % align != 0)
            && (p.used == usedEvent <==> AvailEnd(num) % align == 0)
  {
    UsedAt(base, num, align);
    AlignMoves(AvailEnd(num), align);
  }

  lemma {:induction false} Pow2Multiple(n: nat)
    requires Pow2(n)
    ensures n == 1 || n == 2 || n == 4 || n % 8 == 0
  {
    if n > 1 { Pow2Multiple(n / 2); }
  }

  lemma EndOddly(num: u16)
    requires Pow2(num)
    ensures AvailEnd(num) % 16 != 0
  {
    Pow2Multiple(num);
  }

  lemma MultipleOf16(x: nat, a: nat, k: nat)
    requires a > 0 && a == k * 16 && x % a == 0
    ensures x % 16 == 0
  {
    var q := x / a;
    assert x == q * (k * 16) == (q * k) * 16;
    DivModUnique(x, 16, q * k, 0);
  }

  lemma NotAligned(num: u16, align: u64)
    requires Pow2(num) && Pow2(align) && align >= 16
    ensures AvailEnd(num) % align != 0
  {
    EndOddly(num);
    assert Pow2(16);
    var k := Pow2Divides(16, align);
    if AvailEnd(num) % align == 0 {
      MultipleOf16(AvailEnd(num), align, k);
    }
  }

  /** For tables of a power of two and alignments from 16 up, the two always agree. */
  lemma AgreesFrom16(base: u64, num: u16, align: u64)
    requires Fits(base, num, align) && Pow2(num) && align >= 16
    ensures AvailEnd(num) % align != 0
    ensures Place(base, num, align).used + 4 + num * 8 + 2 == base + VringSize(num, align)
  {
    NotAligned(num, align);
    SizeAgreesIff(base, num, align);
  }

  /** With alignment 8 a table of two already disagrees. */
  lemma DisagreesAt8(base: u64)
    requires Fits(base, 2, 8)
    ensures Place(base, 2, 8).used == Place(base, 2, 8).avail + 4 + 4
    ensures Place(base, 2, 8).used + 4 + 16 + 2 != base + VringSize(2, 8)
  {
    assert AvailEnd(2) == 40;
    UsedEventClearIff(base, 2, 8);
    SizeAgreesIff(base, 2, 8);
  }
}
