/**
 Machine words of 64 bits and the bitmaps made of them (linux/bitmap.h, linux/bitops.h).  A
 word is the sequence of its bits, bit 0 first; the word operators act on all of them.
 */
module Bits {

  type Word = w: seq<bool> | |w| == 64 witness seq(64, _ => false)

  function Zero(): (r: Word)
    ensures forall i :: 0 <= i < 64 ==> !r[i]
  {
    seq(64, _ => false)
  }

  function Ones(): (r: Word)
    ensures forall i :: 0 <= i < 64 ==> r[i]
  {
    seq(64, _ => true)
  }

  function And(a: Word, b: Word): (r: Word)
    ensures forall i :: 0 <= i < 64 ==> r[i] == (a[i] && b[i])
  {
    seq(64, i requires 0 <= i < 64 => a[i] && b[i])
  }

  function Or(a: Word, b: Word): (r: Word)
    ensures forall i :: 0 <= i < 64 ==> r[i] == (a[i] || b[i])
  {
    seq(64, i requires 0 <= i < 64 => a[i] || b[i])
  }

  function Not(a: Word): (r: Word)
    ensures forall i :: 0 <= i < 64 ==> r[i] == !a[i]
  {
    seq(64, i requires 0 <= i < 64 => !a[i])
  }

  /** a << n; all bits are gone for n == 64. */
  function Shl(a: Word, n: nat): (r: Word)
    ensures forall i :: 0 <= i < 64 ==> r[i] == (i >= n && a[i - n])
  {
    seq(64, i requires 0 <= i < 64 => i >= n && a[i - n])
  }

  function Shr(a: Word, n: nat): (r: Word)
    ensures forall i :: 0 <= i < 64 ==> r[i] == (i + n < 64 && a[i + n])
  {
    seq(64, i requires 0 <= i < 64 => i + n < 64 && a[i + n])
  }

  /** (1UL << n) - 1: the n low bits. */
  function LowMask(n: nat): (r: Word)
    ensures forall i :: 0 <= i < 64 ==> r[i] == (i < n)
  {
    seq(64, i requires 0 <= i < 64 => i < n)
  }

  predicate IsZero(a: Word) { forall i :: 0 <= i < 64 ==> !a[i] }

  /** __ffs: the lowest set bit. */
  method Ffs(a: Word) returns (k: nat)
    requires !IsZero(a)
    ensures k < 64 && a[k] && forall i :: 0 <= i < k ==> !a[i]
  {
    k := 0;
    while !a[k]
      invariant k < 64 && forall i :: 0 <= i < k ==> !a[i]
      decreases 64 - k
    {
      k := k + 1;
    }
  }

  // ----- Bitmaps -----

  function Words(bits: nat): nat { (bits + 63) / 64 }

  /** test_bit */
  predicate Test(m: seq<Word>, i: nat)
    requires i < 64 * |m|
  {
    m[i / 64][i % 64]
  }

  /** set_bit */
  function SetBit(m: seq<Word>, i: nat): (r: seq<Word>)
    requires i < 64 * |m|
    ensures |r| == |m| && forall j :: 0 <= j < 64 * |m| ==> Test(r, j) == (j == i || Test(m, j))
  {
    var w: Word := m[i / 64][i % 64 := true];
    m[i / 64 := w]
  }

  /** Bit k of word j is bit 64 * j + k of the bitmap. */
  lemma WordBit(m: seq<Word>, j: nat, k: nat)
    requires j < |m| && k < 64
    ensures Test(m, 64 * j + k) == m[j][k]
  {
    assert (64 * j + k) / 64 == j && (64 * j + k) % 64 == k;
  }

  /** r is the least bit with value v among offset..size-1, or size. */
  ghost predicate IsNext(m: seq<Word>, size: nat, offset: nat, v: bool, r: nat)
    requires size <= 64 * |m|
  {
    if offset >= size then r == size
    else offset <= r <= size && (r < size ==> Test(m, r) == v) && forall i :: offset <= i < r ==> Test(m, i) != v
  }
}
