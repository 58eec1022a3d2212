/**
 The multiword shifts of lib/bitmap.c, for distinct buffers and in place: they refine the
 shift of single bits for every size, and the unused bits of the last source word never show.
 */
module BitmapShift {
  import opened Bits

  // ----- Right -----

  /** Bit b of the bitmap shifted right. */
  predicate RightBit(src: seq<Word>, b: nat, shift: nat, bits: nat)
    requires bits <= 64 * |src|
  {
    b + shift < bits && Test(src, b + shift)
  }

  /** One word of the result, put together from two source words with unused bits masked. */
  function RightShifted(lower0: Word, upper0: Word, rem: nat, left: nat, lowerLast: bool, upperLast: bool, dstLast: bool): Word
    requires rem < 64 && left < 64
  {
    var upper := if upperLast && left != 0 then And(upper0, LowMask(left)) else upper0;
    var lower := if lowerLast && left != 0 then And(lower0, LowMask(left)) else lower0;
    var w := Or(Shl(upper, 64 - rem), Shr(lower, rem));
    if dstLast && left != 0 then And(w, LowMask(left)) else w
  }

  ghost predicate RightWord(w: Word, src: seq<Word>, k: nat, shift: nat, bits: nat)
    requires bits <= 64 * |src|
  {
    forall i :: 0 <= i < 64 ==> w[i] == RightBit(src, 64 * k + i, shift, bits)
  }

  lemma RightWordOk(src: seq<Word>, k: nat, shift: nat, bits: nat, lim: nat, upper0: Word)
    requires lim == Words(bits) <= |src| && k + shift / 64 < lim
    requires upper0 == if shift % 64 == 0 || shift / 64 + k + 1 >= lim then Zero() else src[shift / 64 + k + 1]
    ensures var off := shift / 64;
            RightWord(RightShifted(src[off + k], upper0, shift % 64, bits % 64, off + k == lim - 1,
                                   off + k + 1 == lim - 1, k == lim - 1), src, k, shift, bits)
  {
    hide And, Or, Shl, Shr, LowMask, Zero, RightShifted, RightBit;
    var off, rem := shift / 64, shift % 64;
    var w := RightShifted(src[off + k], upper0, rem, bits % 64, off + k == lim - 1, off + k + 1 == lim - 1, k == lim - 1);
    forall i | 0 <= i < 64 ensures w[i] == RightBit(src, 64 * k + i, shift, bits) {
      RightBitOk(src, k, off, rem, bits, lim, upper0, i);
    }
  }

  lemma RightBitOk(src: seq<Word>, k: nat, off: nat, rem: nat, bits: nat, lim: nat, upper0: Word, i: nat)
    requires lim == Words(bits) <= |src| && bits <= 64 * |src| && k + off < lim && rem < 64 && i < 64
    requires upper0 == if rem == 0 || off + k + 1 >= lim then Zero() else src[off + k + 1]
    ensures RightShifted(src[off + k], upper0, rem, bits % 64, off + k == lim - 1, off + k + 1 == lim - 1, k == lim - 1)[i]
            == RightBit(src, 64 * k + i, 64 * off + rem, bits)
  {
    hide And, Or, Shl, Shr, LowMask, Zero;
    if i + rem < 64 { WordBit(src, off + k, i + rem); }
    else if off + k + 1 < lim { WordBit(src, off + k + 1, i + rem - 64); }
  }

  /** Beyond the shifted bits there are only zeros. */
  lemma ZeroRight(src: seq<Word>, k: nat, shift: nat, bits: nat)
    requires bits <= 64 * |src| && k + shift / 64 >= Words(bits)
    ensures RightWord(Zero(), src, k, shift, bits)
  {
  }

  lemma RightWords(dst: seq<Word>, src: seq<Word>, shift: nat, bits: nat)
    requires bits <= 64 * |src| && Words(bits) <= |dst|
    requires forall k :: 0 <= k < Words(bits) ==> RightWord(dst[k], src, k, shift, bits)
    ensures forall b :: 0 <= b < 64 * Words(bits) ==> Test(dst, b) == RightBit(src, b, shift, bits)
  {
    forall b | 0 <= b < 64 * Words(bits) ensures Test(dst, b) == RightBit(src, b, shift, bits) {
      assert RightWord(dst[b / 64], src, b / 64, shift, bits);
    }
  }

  /** __bitmap_shift_right */
  method ShiftRight(dst: array<Word>, src: array<Word>, shift: nat, bits: nat)
    requires Words(bits) <= dst.Length && Words(bits) <= src.Length && shift <= bits
    modifies dst
    ensures forall b :: 0 <= b < 64 * Words(bits) ==> Test(dst[..], b) == RightBit(old(src[..]), b, shift, bits)
    ensures forall k :: Words(bits) <= k < dst.Length ==> dst[k] == old(dst[k])
  {
    hide RightShifted, RightWord;
    var lim, left := Words(bits), bits % 64;
    var off, rem := shift / 64, shift % 64;
    ghost var s := src[..];
    var k := 0;
    while off + k < lim
      invariant 0 <= k && off + k <= lim
      invariant forall j :: 0 <= j < k ==> RightWord(dst[j], s, j, shift, bits)
      invariant forall j :: k <= j < src.Length ==> src[j] == s[j]
      invariant forall j :: k <= j < dst.Length ==> dst[j] == old(dst[j])
    {
      var upper := if rem == 0 || off + k + 1 >= lim then Zero() else src[off + k + 1];
      RightWordOk(s, k, shift, bits, lim, upper);
      dst[k] := RightShifted(src[off + k], upper, rem, left, off + k == lim - 1, off + k + 1 == lim - 1, k == lim - 1);
      k := k + 1;
    }
    while k < lim
      invariant lim - off <= k <= lim
      invariant forall j :: 0 <= j < k ==> RightWord(dst[j], s, j, shift, bits)
      invariant forall j :: k <= j < dst.Length ==> dst[j] == old(dst[j])
    {
      dst[k] := Zero();
      ZeroRight(s, k, shift, bits);
      k := k + 1;
    }
    RightWords(dst[..], s, shift, bits);
  }

  // ----- Left -----

  /** Bit b of the bitmap shifted left. */
  predicate LeftBit(src: seq<Word>, b: nat, shift: nat, bits: nat)
    requires bits <= 64 * |src|
  {
    shift <= b < bits && Test(src, b - shift)
  }

  function LeftShifted(lower: Word, upper0: Word, rem: nat, left: nat, upperLast: bool, dstLast: bool): Word
    requires rem < 64 && left < 64
  {
    var upper := if upperLast && left != 0 then And(upper0, LowMask(left)) else upper0;
    var w := Or(Shr(lower, 64 - rem), Shl(upper, rem));
    if dstLast && left != 0 then And(w, LowMask(left)) else w
  }

  ghost predicate LeftWord(w: Word, src: seq<Word>, k: nat, shift: nat, bits: nat)
    requires bits <= 64 * |src|
  {
    forall i :: 0 <= i < 64 ==> w[i] == LeftBit(src, 64 * k + i, shift, bits)
  }

  lemma LeftWordOk(src: seq<Word>, k: nat, shift: nat, bits: nat, lim: nat, lower: Word)
    requires lim == Words(bits) <= |src| && k + shift / 64 < lim
    requires lower == if shift % 64 != 0 && k > 0 then src[k - 1] else Zero()
    ensures var off := shift / 64;
            LeftWord(LeftShifted(lower, src[k], shift % 64, bits % 64, k == lim - 1, k + off == lim - 1),
                     src, k + off, shift, bits)
  {
    hide And, Or, Shl, Shr, LowMask, Zero, LeftShifted, LeftBit;
    var off, rem := shift / 64, shift % 64;
    var w := LeftShifted(lower, src[k], rem, bits % 64, k == lim - 1, k + off == lim - 1);
    forall i | 0 <= i < 64 ensures w[i] == LeftBit(src, 64 * (k + off) + i, shift, bits) {
      LeftBitOk(src, k, off, rem, bits, lim, lower, i);
    }
  }

  lemma LeftBitOk(src: seq<Word>, k: nat, off: nat, rem: nat, bits: nat, lim: nat, lower: Word, i: nat)
    requires lim == Words(bits) <= |src| && bits <= 64 * |src| && k + off < lim && rem < 64 && i < 64
    requires lower == if rem != 0 && k > 0 then src[k - 1] else Zero()
    ensures LeftShifted(lower, src[k], rem, bits % 64, k == lim - 1, k + off == lim - 1)[i]
            == LeftBit(src, 64 * (k + off) + i, 64 * off + rem, bits)
  {
    hide And, Or, Shl, Shr, LowMask, Zero;
    if i >= rem { WordBit(src, k, i - rem); }
    else if k > 0 { WordBit(src, k - 1, i + 64 - rem); }
  }

  lemma ZeroLeft(src: seq<Word>, k: nat, shift: nat, bits: nat)
    requires bits <= 64 * |src| && k < shift / 64
    ensures LeftWord(Zero(), src, k, shift, bits)
  {
  }

  lemma LeftWords(dst: seq<Word>, src: seq<Word>, shift: nat, bits: nat)
    requires bits <= 64 * |src| && Words(bits) <= |dst|
    requires forall k :: 0 <= k < Words(bits) ==> LeftWord(dst[k], src, k, shift, bits)
    ensures forall b :: 0 <= b < 64 * Words(bits) ==> Test(dst, b) == LeftBit(src, b, shift, bits)
  {
    forall b | 0 <= b < 64 * Words(bits) ensures Test(dst, b) == LeftBit(src, b, shift, bits) {
      assert LeftWord(dst[b / 64], src, b / 64, shift, bits);
    }
  }

  /** __bitmap_shift_left: from the top word down, so that it works in place. */
  method ShiftLeft(dst: array<Word>, src: array<Word>, shift: nat, bits: nat)
    requires Words(bits) <= dst.Length && Words(bits) <= src.Length && shift <= bits
    modifies dst
    ensures forall b :: 0 <= b < 64 * Words(bits) ==> Test(dst[..], b) == LeftBit(old(src[..]), b, shift, bits)
    ensures forall k :: Words(bits) <= k < dst.Length ==> dst[k] == old(dst[k])
  {
    hide LeftShifted, LeftWord;
    var lim, left := Words(bits), bits % 64;
    var off, rem := shift / 64, shift % 64;
    ghost var s := src[..];
    var k := lim - off - 1;
    while k >= 0
      invariant -1 <= k < lim - off
      invariant forall j :: k + 1 + off <= j < lim ==> LeftWord(dst[j], s, j, shift, bits)
      invariant forall j :: 0 <= j <= k + off && j < src.Length ==> src[j] == s[j]
      invariant forall j :: lim <= j < dst.Length ==> dst[j] == old(dst[j])
    {
      var lower := if rem != 0 && k > 0 then src[k - 1] else Zero();
      LeftWordOk(s, k, shift, bits, lim, lower);
      dst[k + off] := LeftShifted(lower, src[k], rem, left, k == lim - 1, k + off == lim - 1);
      k := k - 1;
    }
    k := 0;
    while k < off
      invariant 0 <= k <= off
      invariant forall j :: 0 <= j < k ==> LeftWord(dst[j], s, j, shift, bits)
      invariant forall j :: off <= j < lim ==> LeftWord(dst[j], s, j, shift, bits)
      invariant forall j :: lim <= j < dst.Length ==> dst[j] == old(dst[j])
    {
      dst[k] := Zero();
      ZeroLeft(s, k, shift, bits);
      k := k + 1;
    }
    LeftWords(dst[..], s, shift, bits);
  }

  /** Shifting left and then right by the same amount keeps the bits that stayed inside. */
  lemma RightUndoesLeft(src: seq<Word>, mid: seq<Word>, b: nat, shift: nat, bits: nat)
    requires bits <= 64 * |src| && bits <= 64 * |mid| && b < bits
    requires forall c :: 0 <= c < bits ==> Test(mid, c) == LeftBit(src, c, shift, bits)
    ensures RightBit(mid, b, shift, bits) == (b + shift < bits && Test(src, b))
  {
    if b + shift < bits { assert Test(mid, b + shift) == LeftBit(src, b + shift, shift, bits); }
  }
}
