/** Setting and clearing a range of bits, and the word-wise intersections, of lib/bitmap.c. */
module BitmapRange {
  import opened Bits

  /** Bit i of a bitmap whose word p was replaced by w. */
  lemma ReplaceWord(m: seq<Word>, p: nat, w: Word, i: nat)
    requires p < |m| && i < 64 * |m|
    ensures Test(m[p := w], i) == if i / 64 == p then w[i % 64] else Test(m, i)
  {
  }

  /** Bits start..end-1 are v and all others are as before. */
  ghost predicate Painted(m: seq<Word>, was: seq<Word>, start: nat, end: nat, v: bool) {
    |m| == |was| && forall i :: 0 <= i < 64 * |m| ==> Test(m, i) == if start <= i < end then v else Test(was, i)
  }

  /** One more word: the bits that `mask` selects in word p are those of pos..next-1. */
  lemma PaintWord(m: seq<Word>, was: seq<Word>, start: nat, pos: nat, next: nat, mask: Word, v: bool)
    requires Painted(m, was, start, pos, v) && start <= pos < next <= 64 * (pos / 64 + 1) <= 64 * |m|
    requires forall k :: 0 <= k < 64 ==> mask[k] == (pos <= 64 * (pos / 64) + k < next)
    ensures
      var p := pos / 64;
      Painted(m[p := if v then Or(m[p], mask) else And(m[p], Not(mask))], was, start, next, v)
  {
    var p := pos / 64;
    var w := if v then Or(m[p], mask) else And(m[p], Not(mask));
    forall i | 0 <= i < 64 * |m| ensures Test(m[p := w], i) == if start <= i < next then v else Test(was, i) {
      ReplaceWord(m, p, w, i);
      if i / 64 == p {
        assert i == 64 * p + i % 64;
        assert Test(m, i) == m[p][i % 64];
      }
    }
  }

  method BitmapSet(bitmap: array<Word>, start: nat, len: nat)
    requires start + len <= 64 * bitmap.Length
    modifies bitmap
    ensures Painted(bitmap[..], old(bitmap[..]), start, start + len, true)
  {
    var p, size, nr := start / 64, start + len, len;
    var bitsToSet: nat := 64 - start % 64;
    var mask := Shl(Ones(), start % 64);
    ghost var pos := start;
    while nr - bitsToSet >= 0
      invariant 0 <= nr && pos + nr == size && start <= pos
      invariant p == pos / 64 && bitsToSet == 64 - pos % 64
      invariant forall k :: 0 <= k < 64 ==> mask[k] == (k >= pos % 64)
      invariant Painted(bitmap[..], old(bitmap[..]), start, pos, true)
    {
      PaintWord(bitmap[..], old(bitmap[..]), start, pos, pos + bitsToSet, mask, true);
      bitmap[p] := Or(bitmap[p], mask);
      pos := pos + bitsToSet;
      nr := nr - bitsToSet;
      bitsToSet := 64;
      mask := Ones();
      p := p + 1;
    }
    if nr != 0 {
      mask := And(mask, LowMask(size % 64));
      PaintWord(bitmap[..], old(bitmap[..]), start, pos, size, mask, true);
      bitmap[p] := Or(bitmap[p], mask);
    }
  }

  method BitmapClear(bitmap: array<Word>, start: nat, len: nat)
    requires start + len <= 64 * bitmap.Length
    modifies bitmap
    ensures Painted(bitmap[..], old(bitmap[..]), start, start + len, false)
  {
    var p, size, nr := start / 64, start + len, len;
    var bitsToClear: nat := 64 - start % 64;
    var mask := Shl(Ones(), start % 64);
    ghost var pos := start;
    while nr - bitsToClear >= 0
      invariant 0 <= nr && pos + nr == size && start <= pos
      invariant p == pos / 64 && bitsToClear == 64 - pos % 64
      invariant forall k :: 0 <= k < 64 ==> mask[k] == (k >= pos % 64)
      invariant Painted(bitmap[..], old(bitmap[..]), start, pos, false)
    {
      PaintWord(bitmap[..], old(bitmap[..]), start, pos, pos + bitsToClear, mask, false);
      bitmap[p] := And(bitmap[p], Not(mask));
      pos := pos + bitsToClear;
      nr := nr - bitsToClear;
      bitsToClear := 64;
      mask := Ones();
      p := p + 1;
    }
    if nr != 0 {
      mask := And(mask, LowMask(size % 64));
      PaintWord(bitmap[..], old(bitmap[..]), start, pos, size, mask, false);
      bitmap[p] := And(bitmap[p], Not(mask));
    }
  }

  /** Clearing what was set restores a bitmap whose range was clear. */
  lemma ClearUndoesSet(was: seq<Word>, painted: seq<Word>, cleared: seq<Word>, start: nat, end: nat)
    requires end <= 64 * |was| && forall i :: start <= i < end ==> !Test(was, i)
    requires Painted(painted, was, start, end, true) && Painted(cleared, painted, start, end, false)
    ensures cleared == was
  {
    forall j | 0 <= j < |was| ensures cleared[j] == was[j] {
      forall k | 0 <= k < 64 ensures cleared[j][k] == was[j][k] {
        WordBit(cleared, j, k);
        WordBit(was, j, k);
        assert Test(painted, 64 * j + k) == if start <= 64 * j + k < end then true else Test(was, 64 * j + k);
      }
    }
  }

  // ----- Intersections -----

  /** Some bit of from..to-1 is set in a and has value v in b. */
  ghost predicate Meet(a: seq<Word>, b: seq<Word>, from: nat, to: nat, v: bool)
    requires |a| == |b| && to <= 64 * |a|
  {
    exists i :: from <= i < to && Test(a, i) && Test(b, i) == v
  }

  lemma AnyBit(m: seq<Word>)
    ensures (exists i :: 0 <= i < 64 * |m| && Test(m, i)) <==> exists j :: 0 <= j < |m| && !IsZero(m[j])
  {
    forall j, k | 0 <= j < |m| && 0 <= k < 64 && m[j][k] ensures exists i :: 0 <= i < 64 * |m| && Test(m, i) {
      WordBit(m, j, k);
    }
  }

  /**
   __bitmap_and and, with v false, __bitmap_andnot, also in place.  The returned flag looks at whole words: it tells whether
   the first `bits` bits meet, if and only if they do or the unused bits of the last word do not.
   */
  method BitmapAnd(dst: array<Word>, bitmap1: array<Word>, bitmap2: array<Word>, bits: nat, v: bool) returns (any: bool)
    requires dst.Length == bitmap1.Length == bitmap2.Length == Words(bits)
    modifies dst
    ensures forall i :: 0 <= i < 64 * dst.Length ==>
      Test(dst[..], i) == (Test(old(bitmap1[..]), i) && Test(old(bitmap2[..]), i) == v)
    ensures any <==> Meet(old(bitmap1[..]), old(bitmap2[..]), 0, 64 * dst.Length, v)
    ensures
      var used := Meet(old(bitmap1[..]), old(bitmap2[..]), 0, bits, v);
      var tail := Meet(old(bitmap1[..]), old(bitmap2[..]), bits, 64 * dst.Length, v);
      any == used <==> used || !tail
  {
    var result := Zero();
    ghost var a, b := bitmap1[..], bitmap2[..];
    var k := 0;
    while k < Words(bits)
      invariant 0 <= k <= Words(bits)
      invariant forall j :: k <= j < dst.Length ==> bitmap1[j] == a[j] && bitmap2[j] == b[j]
      invariant forall j, i :: 0 <= j < k && 0 <= i < 64 ==> dst[j][i] == (a[j][i] && b[j][i] == v)
      invariant IsZero(result) <==> forall j :: 0 <= j < k ==> IsZero(dst[j])
    {
      dst[k] := And(bitmap1[k], if v then bitmap2[k] else Not(bitmap2[k]));
      result := Or(result, dst[k]);
      k := k + 1;
    }
    any := !IsZero(result);
    AnyBit(dst[..]);
  }

  /** One used bit, clear in both maps, and an unused bit set in both: the flag says that they meet. */
  method UnusedBitsShow() returns (any: bool, bitmap: seq<Word>)
    ensures |bitmap| == 1 && any && !Meet(bitmap, bitmap, 0, 1, true)
  {
    var word: Word := Zero()[1 := true];
    bitmap := [word];
    var dst, map1, map2 := new Word[1](_ => Zero()), new Word[1](_ => word), new Word[1](_ => word);
    assert map1[..] == bitmap && map2[..] == bitmap;
    assert Test(bitmap, 1);
    any := BitmapAnd(dst, map1, map2, 1, true);
  }
}
