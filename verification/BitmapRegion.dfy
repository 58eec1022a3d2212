/**
 The region allocator of lib/bitmap.c: regions of 2^order bits, aligned to their size, set,
 examined and cleared a word at a time.
 */
module BitmapRegion {
  import opened Arith
  import opened Bits

  const ENOMEM := 12
  const EBUSY := 16

  /** pos is a multiple of 2^order. */
  predicate Aligned(pos: nat, order: nat) { order == 0 || (pos % 2 == 0 && Aligned(pos / 2, order - 1)) }

  lemma {:induction false} AlignedIsMultiple(pos: nat, order: nat)
    ensures Aligned(pos, order) <==> pos % Pow2(order) == 0
  {
    if order == 0 {
    } else {
      AlignedIsMultiple(pos / 2, order - 1);
      HalfMod(pos, Pow2(order - 1));
    }
  }

  lemma HalfMod(pos: nat, p: nat)
    requires p >= 1
    ensures pos % (2 * p) == 2 * (pos / 2 % p) + pos % 2
  {
    var h, q, r := pos / 2, pos / 2 / p, pos / 2 % p;
    assert h == q * p + r;
    var rest := 2 * r + pos % 2;
    assert pos == q * (2 * p) + rest by { assert q * (2 * p) == 2 * (q * p); }
    DivideIs(pos, 2 * p, q, rest);
  }

  lemma {:induction false} AlignedNext(pos: nat, order: nat)
    requires Aligned(pos, order)
    ensures Aligned(pos + Pow2(order), order)
  {
    if order == 0 {
    } else {
      AlignedNext(pos / 2, order - 1);
      assert (pos + 2 * Pow2(order - 1)) / 2 == pos / 2 + Pow2(order - 1);
    }
  }

  lemma {:induction false} AlignedZero(order: nat)
    ensures Aligned(0, order)
  {
    if order == 0 {
    } else {
      AlignedZero(order - 1);
    }
  }

  /** Between two neighbouring aligned positions there is no other. */
  lemma {:induction false} AlignedGap(pos: nat, j: nat, order: nat)
    requires Aligned(pos, order) && Aligned(j, order) && pos <= j < pos + Pow2(order)
    ensures j == pos
  {
    if order == 0 {
    } else {
      AlignedGap(pos / 2, j / 2, order - 1);
    }
  }

  lemma {:induction false} BigOrder(pos: nat, order: nat)
    requires Aligned(pos, order) && order >= 6
    ensures pos % 64 == 0 && Pow2(order) % 64 == 0
  {
    hide Aligned, Pow2;
    var p1 := Halves(pos, order);
    var p2 := Halves(p1, order - 1);
    var p3 := Halves(p2, order - 2);
    var p4 := Halves(p3, order - 3);
    var p5 := Halves(p4, order - 4);
    var p6 := Halves(p5, order - 5);
    assert pos == 64 * p6 && Pow2(order) == 64 * Pow2(order - 6);
  }

  lemma Halves(pos: nat, order: nat) returns (q: nat)
    requires Aligned(pos, order) && order >= 1
    ensures pos == 2 * q && Aligned(q, order - 1) && Pow2(order) == 2 * Pow2(order - 1)
  {
    q := pos / 2;
  }

  lemma {:induction false} SmallOrder(pos: nat, order: nat)
    requires Aligned(pos, order) && order < 6
    ensures pos % 64 + Pow2(order) <= 64
  {
    AlignedIsMultiple(pos, order);
    assert Pow2(0) == 1 && Pow2(1) == 2 * Pow2(0) && Pow2(2) == 2 * Pow2(1);
    assert Pow2(3) == 2 * Pow2(2) && Pow2(4) == 2 * Pow2(3) && Pow2(5) == 2 * Pow2(4);
    RoundRoom(pos, Pow2(order));
  }

  lemma RoundRoom(pos: nat, p: nat)
    requires p == 1 || p == 2 || p == 4 || p == 8 || p == 16 || p == 32
    requires pos % p == 0
    ensures pos % 64 + p <= 64
  {
    if p == 2 { assert pos % 2 == 0; }
    else if p == 4 { assert pos % 4 == 0; }
    else if p == 8 { assert pos % 8 == 0; }
    else if p == 16 { assert pos % 16 == 0; }
    else if p == 32 { assert pos % 32 == 0; }
  }

  predicate InRegion(b: nat, pos: nat, order: nat) { pos <= b < pos + Pow2(order) }

  /** mask, index and nlongs_reg of __reg_op. */
  function Mask(pos: nat, order: nat): Word {
    Shl(LowMask(if Pow2(order) < 64 then Pow2(order) else 64), pos % 64)
  }

  lemma RegionMask(b: nat, pos: nat, order: nat)
    requires Aligned(pos, order)
    ensures InRegion(b, pos, order) <==> (pos / 64 <= b / 64 < pos / 64 + Words(Pow2(order)) && Mask(pos, order)[b % 64])
  {
    hide Pow2, Aligned, Shl, LowMask;
    OrderSize(order);
    if order < 6 { SmallOrder(pos, order); } else { BigOrder(pos, order); }
  }

  lemma {:induction false} OrderSize(order: nat)
    ensures order < 6 <==> Pow2(order) < 64
  {
    if order >= 6 {
      assert Pow2(6) == 64 by { assert Pow2(6) == 2 * Pow2(5) == 4 * Pow2(4); assert Pow2(4) == 2 * Pow2(3) == 4 * Pow2(2); }
      Pow2Mono(6, order);
    } else {
      Pow2Mono(order, 5);
      assert Pow2(5) == 32 by { assert Pow2(5) == 2 * Pow2(4) == 4 * Pow2(3); assert Pow2(3) == 2 * Pow2(2) == 4 * Pow2(1); }
    }
  }

  lemma {:induction false} Pow2Mono(a: nat, b: nat)
    requires a <= b
    ensures Pow2(a) <= Pow2(b)
  {
    if a >= b {
    } else {
      Pow2Mono(a, b - 1);
    }
  }

  ghost predicate Free(m: seq<Word>, pos: nat, order: nat) {
    pos + Pow2(order) <= 64 * |m| && forall b :: InRegion(b, pos, order) ==> !Test(m, b)
  }

  datatype RegOp = IsFree | Alloc | Release

  /** What a region operation leaves at bit b. */
  predicate OpBit(m: seq<Word>, pos: nat, order: nat, op: RegOp, b: nat)
    requires b < 64 * |m|
  {
    match op
    case IsFree => Test(m, b)
    case Alloc => InRegion(b, pos, order) || Test(m, b)
    case Release => !InRegion(b, pos, order) && Test(m, b)
  }

  /** __reg_op */
  method DoRegOp(bitmap: array<Word>, pos: nat, order: nat, op: RegOp) returns (ret: bool)
    requires Aligned(pos, order) && pos + Pow2(order) <= 64 * bitmap.Length
    modifies bitmap
    ensures forall b :: 0 <= b < 64 * bitmap.Length ==> Test(bitmap[..], b) == OpBit(old(bitmap[..]), pos, order, op, b)
    ensures op == IsFree ==> bitmap[..] == old(bitmap[..])
    ensures ret == (op == IsFree && Free(old(bitmap[..]), pos, order))
  {
    hide Mask, Pow2, Aligned;
    var index, nlongs, mask := pos / 64, Words(Pow2(order)), Mask(pos, order);
    RegionEnd(pos, order, bitmap.Length);
    forall b: nat ensures InRegion(b, pos, order) <==> (index <= b / 64 < index + nlongs && mask[b % 64]) {
      RegionMask(b, pos, order);
    }
    ghost var m := bitmap[..];
    match op
    case IsFree =>
      var i := 0;
      while i < nlongs
        invariant 0 <= i <= nlongs && bitmap[..] == m
        invariant forall j :: index <= j < index + i ==> IsZero(And(m[j], mask))
      {
        if !IsZero(And(bitmap[index + i], mask)) {
          NotFree(m, pos, order, mask, index, nlongs, index + i);
          return false;
        }
        i := i + 1;
      }
      AllFree(m, pos, order, mask, index, nlongs);
      return true;
    case Alloc =>
      var i := 0;
      while i < nlongs
        invariant 0 <= i <= nlongs
        invariant forall j :: 0 <= j < bitmap.Length ==> bitmap[j] == if index <= j < index + i then Or(m[j], mask) else m[j]
      {
        bitmap[index + i] := Or(bitmap[index + i], mask);
        i := i + 1;
      }
      return false;
    case Release =>
      var i := 0;
      while i < nlongs
        invariant 0 <= i <= nlongs
        invariant forall j :: 0 <= j < bitmap.Length ==> bitmap[j] == if index <= j < index + i then And(m[j], Not(mask)) else m[j]
      {
        bitmap[index + i] := And(bitmap[index + i], Not(mask));
        i := i + 1;
      }
      return false;
  }

  lemma RegionEnd(pos: nat, order: nat, len: nat)
    requires Aligned(pos, order) && pos + Pow2(order) <= 64 * len
    ensures pos / 64 + Words(Pow2(order)) <= len
  {
    hide Pow2, Aligned;
    OrderSize(order);
    if order < 6 { SmallOrder(pos, order); } else { BigOrder(pos, order); }
  }

  lemma NotFree(m: seq<Word>, pos: nat, order: nat, mask: Word, index: nat, nlongs: nat, j: nat)
    requires pos + Pow2(order) <= 64 * |m|
    requires forall b: nat :: InRegion(b, pos, order) <==> (index <= b / 64 < index + nlongs && mask[b % 64])
    requires index <= j < index + nlongs <= |m| && !IsZero(And(m[j], mask))
    ensures !Free(m, pos, order)
  {
    var k :| 0 <= k < 64 && And(m[j], mask)[k];
    WordBit(m, j, k);
    assert InRegion(64 * j + k, pos, order);
  }

  lemma AllFree(m: seq<Word>, pos: nat, order: nat, mask: Word, index: nat, nlongs: nat)
    requires pos + Pow2(order) <= 64 * |m| && index + nlongs <= |m|
    requires forall b: nat :: InRegion(b, pos, order) <==> (index <= b / 64 < index + nlongs && mask[b % 64])
    requires forall j :: index <= j < index + nlongs ==> IsZero(And(m[j], mask))
    ensures Free(m, pos, order)
  {
    forall b | InRegion(b, pos, order) ensures !Test(m, b) {
      assert IsZero(And(m[b / 64], mask));
      assert !And(m[b / 64], mask)[b % 64];
    }
  }

  // ----- Allocation -----

  datatype Region = Region(pos: nat, order: nat)

  predicate Holds(r: Region, b: nat) { InRegion(b, r.pos, r.order) }

  ghost predicate Disjoint(r: Region, q: Region) { forall b: nat :: !(Holds(r, b) && Holds(q, b)) }

  ghost predicate Covered(live: set<Region>, b: nat) { exists r :: r in live && Holds(r, b) }

  /** The live regions are aligned, inside, disjoint, and together exactly the set bits. */
  ghost predicate Consistent(m: seq<Word>, bits: nat, live: set<Region>) {
    && bits <= 64 * |m|
    && (forall r :: r in live ==> Aligned(r.pos, r.order) && r.pos + Pow2(r.order) <= bits)
    && (forall r, q :: r in live && q in live && r != q ==> Disjoint(r, q))
    && (forall b :: 0 <= b < bits ==> Test(m, b) == Covered(live, b))
  }

  /** An aligned region of the given order that is inside the bitmap and clear. */
  ghost predicate Available(m: seq<Word>, bits: nat, pos: nat, order: nat) {
    Aligned(pos, order) && pos + Pow2(order) <= bits && Free(m, pos, order)
  }

  lemma AllocConsistent(m: seq<Word>, m': seq<Word>, bits: nat, live: set<Region>, pos: nat, order: nat)
    requires Consistent(m, bits, live) && Available(m, bits, pos, order) && |m'| == |m|
    requires forall b :: 0 <= b < 64 * |m| ==> Test(m', b) == OpBit(m, pos, order, Alloc, b)
    ensures Consistent(m', bits, live + {Region(pos, order)}) && Region(pos, order) !in live
  {
    hide Pow2, Aligned;
    var r := Region(pos, order);
    assert Holds(r, pos);
    forall q | q in live ensures Disjoint(r, q) && Disjoint(q, r) {
      forall b: nat ensures !(Holds(r, b) && Holds(q, b)) {
        if Holds(r, b) { assert !Test(m, b); assert !Covered(live, b); }
      }
    }
    var live' := live + {r};
    forall b | 0 <= b < bits ensures Test(m', b) == Covered(live', b) {
      assert Test(m, b) == Covered(live, b);
      if InRegion(b, pos, order) { assert r in live' && Holds(r, b); }
    }
  }

  lemma ReleaseConsistent(m: seq<Word>, m': seq<Word>, bits: nat, live: set<Region>, r: Region)
    requires Consistent(m, bits, live) && r in live && |m'| == |m|
    requires forall b :: 0 <= b < 64 * |m| ==> Test(m', b) == OpBit(m, r.pos, r.order, Release, b)
    ensures Consistent(m', bits, live - {r})
  {
    hide Pow2, Aligned;
    var live' := live - {r};
    forall b | 0 <= b < bits ensures Test(m', b) == Covered(live', b) {
      assert Test(m, b) == Covered(live, b);
      if Holds(r, b) {
        forall q | q in live' ensures !Holds(q, b) { assert Disjoint(r, q); }
      } else if Covered(live, b) {
        var q :| q in live && Holds(q, b);
        assert q in live';
      }
    }
  }

  class Allocator {
    const bitmap: array<Word>
    const bits: nat
    ghost var live: set<Region>

    ghost predicate Ok()
      reads this, bitmap
    {
      Consistent(bitmap[..], bits, live)
    }

    constructor (bits: nat)
      ensures Ok() && live == {} && this.bits == bits && fresh(bitmap)
    {
      this.bits := bits;
      bitmap := new Word[Words(bits)](_ => Zero());
      live := {};
    }

    /** bitmap_find_free_region: the least free aligned position, or -ENOMEM if and only if there is none. */
    method FindFreeRegion(order: nat) returns (r: int)
      requires Ok()
      modifies this, bitmap
      ensures Ok()
      ensures r < 0 <==> forall j :: !Available(old(bitmap[..]), bits, j, order)
      ensures r < 0 ==> r == -12 && live == old(live) && bitmap[..] == old(bitmap[..])
      ensures r >= 0 ==> Available(old(bitmap[..]), bits, r, order) && live == old(live) + {Region(r, order)}
                         && Region(r, order) !in old(live)
      ensures r >= 0 ==> forall j :: Available(old(bitmap[..]), bits, j, order) ==> r <= j
    {
      hide Pow2, Aligned, Consistent, Free;
      ghost var m := bitmap[..];
      ConsistentFits(m, bits, live);
      AlignedZero(order);
      var pos := 0;
      while pos + Pow2(order) <= bits
        invariant 0 <= pos && Aligned(pos, order) && bitmap[..] == m && live == old(live)
        invariant forall j :: 0 <= j < pos ==> !Available(m, bits, j, order)
        decreases bits - pos
      {
        var free := DoRegOp(bitmap, pos, order, IsFree);
        if free {
          var _ := DoRegOp(bitmap, pos, order, Alloc);
          AllocConsistent(m, bitmap[..], bits, live, pos, order);
          live := live + {Region(pos, order)};
          return pos;
        }
        var end := pos + Pow2(order);
        forall j | pos <= j < end ensures !Available(m, bits, j, order) {
          if Aligned(j, order) { AlignedGap(pos, j, order); }
        }
        AlignedNext(pos, order);
        pos := end;
      }
      r := -ENOMEM;
    }

    /** bitmap_allocate_region: 0 if the region was free, -EBUSY otherwise. */
    method AllocateRegion(pos: nat, order: nat) returns (rc: int)
      requires Ok() && Aligned(pos, order) && pos + Pow2(order) <= bits
      modifies this, bitmap
      ensures Ok() && (rc == 0 <==> Free(old(bitmap[..]), pos, order)) && (rc == 0 || rc == -16)
      ensures rc != 0 ==> live == old(live) && bitmap[..] == old(bitmap[..])
      ensures rc == 0 ==> live == old(live) + {Region(pos, order)} && Region(pos, order) !in old(live)
    {
      hide Pow2, Aligned, Consistent, Free;
      ghost var m := bitmap[..];
      ConsistentFits(m, bits, live);
      var free := DoRegOp(bitmap, pos, order, IsFree);
      if !free { return -EBUSY; }
      var _ := DoRegOp(bitmap, pos, order, Alloc);
      AllocConsistent(m, bitmap[..], bits, live, pos, order);
      live := live + {Region(pos, order)};
      rc := 0;
    }

    /** bitmap_release_region of a live region. */
    method ReleaseRegion(pos: nat, order: nat)
      requires Ok() && Region(pos, order) in live
      modifies this, bitmap
      ensures Ok() && live == old(live) - {Region(pos, order)}
      ensures Available(bitmap[..], bits, pos, order)
    {
      hide Pow2, Aligned, Consistent;
      ghost var m := bitmap[..];
      ConsistentFits(m, bits, live);
      var _ := DoRegOp(bitmap, pos, order, Release);
      ReleaseConsistent(m, bitmap[..], bits, live, Region(pos, order));
      live := live - {Region(pos, order)};
    }
  }

  lemma ConsistentFits(m: seq<Word>, bits: nat, live: set<Region>)
    requires Consistent(m, bits, live)
    ensures bits <= 64 * |m| && forall r :: r in live ==> Aligned(r.pos, r.order) && r.pos + Pow2(r.order) <= bits
  {
  }
}
