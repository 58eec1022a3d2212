/** lib/find_next_bit.c: searches for a set or a clear bit, a word at a time. */
module FindBit {
  import opened Arith
  import opened Bits

  /** The tail of each search: the last, partial word, already cleared below the offset. */
  method LastWord(m: seq<Word>, tmp0: Word, result: nat, left: nat, ghost offset: nat, v: bool) returns (r: nat)
    requires 0 < left <= 64 && result % 64 == 0 && result < 64 * |m| && result + left <= 64 * |m|
    requires forall k :: 0 <= k < 64 ==> tmp0[k] == (result + k >= offset && m[result / 64][k] == v)
    requires forall i :: offset <= i < result ==> Test(m, i) != v
    requires offset < result + left
    ensures IsNext(m, result + left, offset, v, r)
  {
    var tmp := And(tmp0, LowMask(left));
    if IsZero(tmp) {
      r := result + left;
    } else {
      var k := Ffs(tmp);
      r := result + k;
    }
    forall i | result <= i < 64 * |m| && i < result + 64 ensures Test(m, i) == m[result / 64][i - result] {
      WordBit(m, result / 64, i - result);
    }
    forall i | offset <= i < r ensures Test(m, i) != v {
      if i >= result { assert !tmp[i - result]; }
    }
  }

  /** A full word with a bit of value v at or above the offset. */
  method FoundMiddle(m: seq<Word>, size: nat, tmp: Word, result: nat, ghost offset: nat, v: bool) returns (r: nat)
    requires size <= 64 * |m| && result % 64 == 0 && result + 64 <= size && offset < size && !IsZero(tmp)
    requires forall k :: 0 <= k < 64 ==> tmp[k] == (result + k >= offset && m[result / 64][k] == v)
    requires forall i :: offset <= i < result ==> Test(m, i) != v
    ensures IsNext(m, size, offset, v, r)
  {
    var k := Ffs(tmp);
    r := result + k;
    forall i | result <= i < result + 64 ensures Test(m, i) == m[result / 64][i - result] {
      WordBit(m, result / 64, i - result);
    }
    forall i | offset <= i < r ensures Test(m, i) != v {
      if i >= result { assert !tmp[i - result]; }
    }
  }

  /** A full word without such a bit. */
  lemma WordPassed(m: seq<Word>, tmp: Word, result: nat, offset: nat, v: bool)
    requires result % 64 == 0 && result + 64 <= 64 * |m| && IsZero(tmp)
    requires forall k :: 0 <= k < 64 ==> tmp[k] == (result + k >= offset && m[result / 64][k] == v)
    requires forall i :: offset <= i < result ==> Test(m, i) != v
    ensures forall i :: offset <= i < result + 64 ==> Test(m, i) != v
  {
    forall i | result <= i < result + 64 && offset <= i ensures Test(m, i) != v {
      WordBit(m, result / 64, i - result);
      assert !tmp[i - result];
    }
  }

  method FindNextBit(m: seq<Word>, size: nat, offset: nat) returns (r: nat)
    requires size <= 64 * |m|
    ensures IsNext(m, size, offset, true, r)
  {
    hide And, Or, Not, Shl, Shr, Ones;
    if offset >= size { return size; }
    var result := offset - offset % 64;
    var p, left := offset / 64, size - result;
    if offset % 64 != 0 {
      var tmp := And(m[p], Shl(Ones(), offset % 64));
      p := p + 1;
      if left < 64 { r := LastWord(m, tmp, result, left, offset, true); return; }
      if !IsZero(tmp) { r := FoundMiddle(m, size, tmp, result, offset, true); return; }
      WordPassed(m, tmp, result, offset, true);
      left, result := left - 64, result + 64;
    }
    while left >= 64
      invariant result % 64 == 0 && p == result / 64 && result + left == size && left >= 0 && result >= offset
      invariant forall i :: offset <= i < result ==> Test(m, i) != true
      decreases left
    {
      var tmp := m[p];
      p := p + 1;
      if !IsZero(tmp) { r := FoundMiddle(m, size, tmp, result, offset, true); return; }
      WordPassed(m, tmp, result, offset, true);
      left, result := left - 64, result + 64;
    }
    if left == 0 { return result; }
    r := LastWord(m, m[p], result, left, offset, true);
  }

  /** The zero search works on complements: tmp has the bits to skip set. */
  method FindNextZeroBit(m: seq<Word>, size: nat, offset: nat) returns (r: nat)
    requires size <= 64 * |m|
    ensures IsNext(m, size, offset, false, r)
  {
    hide And, Or, Not, Shl, Shr, Ones;
    if offset >= size { return size; }
    var result := offset - offset % 64;
    var p, left := offset / 64, size - result;
    if offset % 64 != 0 {
      var tmp := Or(m[p], Shr(Ones(), 64 - offset % 64));
      p := p + 1;
      if left < 64 { r := LastWord(m, Not(tmp), result, left, offset, false); return; }
      if !IsZero(Not(tmp)) { r := FoundMiddle(m, size, Not(tmp), result, offset, false); return; }
      WordPassed(m, Not(tmp), result, offset, false);
      left, result := left - 64, result + 64;
    }
    while left >= 64
      invariant result % 64 == 0 && p == result / 64 && result + left == size && left >= 0 && result >= offset
      invariant forall i :: offset <= i < result ==> Test(m, i) != false
      decreases left
    {
      var tmp := m[p];
      p := p + 1;
      if !IsZero(Not(tmp)) { r := FoundMiddle(m, size, Not(tmp), result, offset, false); return; }
      WordPassed(m, Not(tmp), result, offset, false);
      left, result := left - 64, result + 64;
    }
    if left == 0 { return result; }
    r := LastWord(m, Not(m[p]), result, left, offset, false);
  }

  method FindFirstBit(m: seq<Word>, size: nat) returns (r: nat)
    requires size <= 64 * |m|
    ensures IsNext(m, size, 0, true, r)
  {
    var p, result, left := 0, 0, size;
    while left >= 64
      invariant result % 64 == 0 && p == result / 64 && result + left == size && left >= 0
      invariant forall i :: 0 <= i < result ==> Test(m, i) != true
      decreases left
    {
      var tmp := m[p];
      p := p + 1;
      if !IsZero(tmp) { r := FoundMiddle(m, size, tmp, result, 0, true); return; }
      WordPassed(m, tmp, result, 0, true);
      left, result := left - 64, result + 64;
    }
    if left == 0 { return result; }
    r := LastWord(m, m[p], result, left, 0, true);
  }

  method FindFirstZeroBit(m: seq<Word>, size: nat) returns (r: nat)
    requires size <= 64 * |m|
    ensures IsNext(m, size, 0, false, r)
  {
    var p, result, left := 0, 0, size;
    while left >= 64
      invariant result % 64 == 0 && p == result / 64 && result + left == size && left >= 0
      invariant forall i :: 0 <= i < result ==> Test(m, i) != false
      decreases left
    {
      var tmp := m[p];
      p := p + 1;
      if !IsZero(Not(tmp)) { r := FoundMiddle(m, size, Not(tmp), result, 0, false); return; }
      WordPassed(m, Not(tmp), result, 0, false);
      left, result := left - 64, result + 64;
    }
    if left == 0 { return result; }
    r := LastWord(m, Not(m[p]), result, left, 0, false);
  }

  // ----- bitmap_find_next_zero_area (lib/bitmap.c) -----

  ghost predicate FreeArea(m: seq<Word>, size: nat, index: nat, nr: nat, align: nat)
    requires size <= 64 * |m| && align >= 1
  {
    index % align == 0 && index + nr <= size && forall i :: index <= i < index + nr ==> !Test(m, i)
  }

  /** The least multiple of align that is not below x. */
  function AlignUp(x: nat, align: nat): nat
    requires align >= 1
  {
    (x + align - 1) / align * align
  }

  lemma AlignUpBounds(x: nat, align: nat)
    requires align >= 1
    ensures x <= AlignUp(x, align) && AlignUp(x, align) % align == 0
  {
    var q, r := (x + align - 1) / align, (x + align - 1) % align;
    assert x + align - 1 == q * align + r;
    DivideIs(q * align, align, q, 0);
  }

  lemma AlignUpLeast(x: nat, align: nat, j: nat)
    requires align >= 1 && j % align == 0 && j >= x
    ensures AlignUp(x, align) <= j
  {
    var q, k, r := (x + align - 1) / align, j / align, (x + align - 1) % align;
    assert x + align - 1 == q * align + r && j == k * align;
    if q > k {
      Spread(k, q, align);
    } else {
      MulLe(q, k, align);
    }
  }

  /** Masks are one less than a power of two, as the source demands. */
  ghost predicate IsMask(mask: nat) { exists k: nat :: mask + 1 == Pow2(k) }

  /** __ALIGN_MASK */
  function AlignMask(x: nat, mask: nat): nat { AndNot(x + mask, mask) }

  lemma AlignMaskIsAlignUp(x: nat, mask: nat)
    requires IsMask(mask)
    ensures AlignMask(x, mask) == AlignUp(x, mask + 1)
  {
    var k: nat :| mask + 1 == Pow2(k);
    AndNotRounds(x + mask, k);
  }

  lemma FreeIsZero(m: seq<Word>, size: nat, start: nat, z: nat, nr: nat, align: nat, j: nat)
    requires size <= 64 * |m| && align >= 1 && nr >= 1 && IsNext(m, size, start, false, z)
    requires start <= j && FreeArea(m, size, j, nr, align)
    ensures z <= j && AlignUp(z, align) <= j
  {
    assert !Test(m, j);
    AlignUpLeast(z, align, j);
  }

  lemma Blocked(m: seq<Word>, size: nat, index: nat, i: nat, nr: nat, align: nat, j: nat)
    requires size <= 64 * |m| && align >= 1 && index <= i < index + nr && i < 64 * |m| && Test(m, i)
    requires FreeArea(m, size, j, nr, align) ==> index <= j
    requires j <= i
    ensures !FreeArea(m, size, j, nr, align)
  {
  }

  /**
   The least aligned index at or above start whose nr bits are all clear; a value above size exactly if
   there is none.  For nr == 0 the next clear bit, or size, is only aligned.
   */
  method FindNextZeroArea(m: seq<Word>, size: nat, start0: nat, nr: nat, mask: nat) returns (r: nat)
    requires size <= 64 * |m| && IsMask(mask)
    ensures nr > 0 && r <= size ==> r >= start0 && FreeArea(m, size, r, nr, mask + 1)
    ensures nr > 0 ==> var align := mask + 1; forall j :: start0 <= j && FreeArea(m, size, j, nr, align) ==> r <= j
    ensures nr == 0 ==> exists z :: IsNext(m, size, start0, false, z) && r == AlignUp(z, mask + 1)
  {
    hide AlignUp, AlignMask, IsMask;
    ghost var align := mask + 1;
    var start := start0;
    while true
      invariant start >= start0 && (nr == 0 ==> start == start0)
      invariant nr > 0 ==> forall j :: start0 <= j < start ==> !FreeArea(m, size, j, nr, align)
      decreases size + 1 - start
    {
      var index := FindNextZeroBit(m, size, start);
      ghost var z := index;
      AlignUpBounds(index, align);
      AlignMaskIsAlignUp(index, mask);
      index := AlignMask(index, mask);
      forall j | nr > 0 && start0 <= j && FreeArea(m, size, j, nr, align) ensures index <= j {
        FreeIsZero(m, size, start, z, nr, align, j);
      }
      var end := index + nr;
      if end > size { return end; }
      var i := FindNextBit(m, end, index);
      if i < end {
        forall j | nr > 0 && start0 <= j < i + 1 ensures !FreeArea(m, size, j, nr, align) {
          Blocked(m, size, index, i, nr, align, j);
        }
        start := i + 1;
      } else {
        return index;
      }
    }
  }
}
