/**
 Rank, select and the remapping operators of lib/bitmap.c: bitmap_pos_to_ord,
 bitmap_ord_to_pos, bitmap_remap, bitmap_bitremap, bitmap_onto and bitmap_fold.
 */
module BitmapRemap {
  import opened Bits
  import opened FindBit

  // ----- Rank and select -----

  /** The number of set bits below n. */
  function Count(m: seq<Word>, n: nat): (c: nat)
    requires n <= 64 * |m|
    ensures c <= n
  {
    if n == 0 then 0 else Count(m, n - 1) + if Test(m, n - 1) then 1 else 0
  }

  /** The position below n of the set bit with ordinal ord, 0 if there is none. */
  function Select(m: seq<Word>, n: nat, ord: nat): (p: nat)
    requires n <= 64 * |m|
    ensures ord < Count(m, n) ==> p < n && Test(m, p) && Count(m, p) == ord
    ensures ord >= Count(m, n) ==> p == 0
  {
    if n == 0 then 0
    else if Test(m, n - 1) && Count(m, n - 1) == ord then n - 1
    else Select(m, n - 1, ord)
  }

  lemma {:induction false} CountMono(m: seq<Word>, a: nat, b: nat)
    requires a <= b <= 64 * |m|
    ensures Count(m, a) <= Count(m, b)
    ensures a < b && Test(m, a) ==> Count(m, a) < Count(m, b)
  {
    if a >= b {
    } else {
      CountMono(m, a, b - 1);
    }
  }

  lemma {:induction false} NoneBetween(m: seq<Word>, a: nat, b: nat)
    requires a <= b <= 64 * |m| && forall i :: a <= i < b ==> !Test(m, i)
    ensures Count(m, a) == Count(m, b)
  {
    if a >= b {
    } else {
      NoneBetween(m, a, b - 1);
    }
  }

  /** Two set bits with the same ordinal are the same bit. */
  lemma RankUnique(m: seq<Word>, p: nat, q: nat)
    requires p < 64 * |m| && q < 64 * |m| && Test(m, p) && Test(m, q) && Count(m, p) == Count(m, q)
    ensures p == q
  {
    if p < q { CountMono(m, p, q); } else if q < p { CountMono(m, q, p); }
  }

  /** Ordinal and position are inverse to each other. */
  lemma RankSelectInverse(m: seq<Word>, bits: nat)
    requires bits <= 64 * |m|
    ensures forall p :: 0 <= p < bits && Test(m, p) ==> Count(m, p) < Count(m, bits) && Select(m, bits, Count(m, p)) == p
    ensures forall n :: 0 <= n < Count(m, bits) ==> Count(m, Select(m, bits, n)) == n
  {
    forall p | 0 <= p < bits && Test(m, p)
      ensures Count(m, p) < Count(m, bits) && Select(m, bits, Count(m, p)) == p
    {
      CountMono(m, p, bits);
      RankUnique(m, p, Select(m, bits, Count(m, p)));
    }
  }

  method PosToOrd(buf: seq<Word>, pos: int, bits: nat) returns (ord: int)
    requires bits <= 64 * |buf|
    ensures ord == if 0 <= pos < bits && Test(buf, pos) then Count(buf, pos) else -1
  {
    if pos < 0 || pos >= bits || !Test(buf, pos) { return -1; }
    var i := FindFirstBit(buf, bits);
    ord := 0;
    NoneBetween(buf, 0, i);
    while i < pos
      invariant i <= pos && Test(buf, i) && ord == Count(buf, i)
    {
      var j := FindNextBit(buf, bits, i + 1);
      NoneBetween(buf, i + 1, j);
      i := j;
      ord := ord + 1;
    }
  }

  method OrdToPos(buf: seq<Word>, ord0: int, bits: nat) returns (pos: nat)
    requires bits <= 64 * |buf|
    ensures pos == if 0 <= ord0 < bits then Select(buf, bits, ord0) else 0
  {
    pos := 0;
    if 0 <= ord0 < bits {
      var ord := ord0;
      var i := FindFirstBit(buf, bits);
      NoneBetween(buf, 0, i);
      while i < bits && ord > 0
        invariant 0 <= ord && 0 <= i <= bits && (i < bits ==> Test(buf, i))
        invariant Count(buf, i) == ord0 - ord
        decreases bits - i
      {
        ord := ord - 1;
        var j := FindNextBit(buf, bits, i + 1);
        if i + 1 < bits { NoneBetween(buf, i + 1, j); }
        i := j;
      }
      if i < bits && ord == 0 {
        pos := i;
        CountMono(buf, i, bits);
        RankUnique(buf, i, Select(buf, bits, ord0));
      } else {
        assert i == bits;
      }
    }
  }

  // ----- Remapping -----

  /** Where (old, new) sends position p: the n-th bit of old to the (n mod w)-th of new, others to themselves. */
  function RemapBit(old_: seq<Word>, new_: seq<Word>, bits: nat, p: int): int
    requires bits <= 64 * |old_| && bits <= 64 * |new_|
  {
    if 0 <= p < bits && Test(old_, p) && Count(new_, bits) > 0 then Select(new_, bits, Count(old_, p) % Count(new_, bits))
    else p
  }

  lemma RemapInside(old_: seq<Word>, new_: seq<Word>, bits: nat, p: nat)
    requires bits <= 64 * |old_| && bits <= 64 * |new_| && p < bits
    ensures 0 <= RemapBit(old_, new_, bits, p) < bits
  {
  }

  /** The set bits among the low k of a word. */
  function OnesIn(w: Word, k: nat): nat
    requires k <= 64
  {
    if k == 0 then 0 else OnesIn(w, k - 1) + if w[k - 1] then 1 else 0
  }

  function HammingWeight(w: Word): nat { OnesIn(w, 64) }

  lemma {:induction false} CountWord(m: seq<Word>, j: nat, k: nat)
    requires j < |m| && k <= 64
    ensures Count(m, 64 * j + k) == Count(m, 64 * j) + OnesIn(m[j], k)
  {
    if k == 0 {
    } else {
      CountWord(m, j, k - 1);
      WordBit(m, j, k - 1);
    }
  }

  lemma {:induction false} MaskedWeight(w: Word, n: nat, k: nat)
    requires n <= 64 && k <= 64
    ensures OnesIn(And(w, LowMask(n)), k) == OnesIn(w, if k <= n then k else n)
  {
    hide And, LowMask;
    if k == 0 {
    } else {
      MaskedWeight(w, n, k - 1);
    }
  }

  /** __bitmap_weight: whole words first, then the used bits of the last one. */
  method Weight(m: seq<Word>, bits: nat) returns (w: nat)
    requires bits <= 64 * |m|
    ensures w == Count(m, bits)
  {
    var k, lim := 0, bits / 64;
    w := 0;
    while k < lim
      invariant 0 <= k <= lim && w == Count(m, 64 * k)
    {
      CountWord(m, k, 64);
      w := w + HammingWeight(m[k]);
      k := k + 1;
    }
    if bits % 64 != 0 {
      CountWord(m, k, bits % 64);
      MaskedWeight(m[k], bits % 64, 64);
      w := w + HammingWeight(And(m[k], LowMask(bits % 64)));
    }
  }

  method BitRemap(oldbit: int, old_: seq<Word>, new_: seq<Word>, bits: nat) returns (r: int)
    requires bits <= 64 * |old_| && bits <= 64 * |new_|
    ensures r == RemapBit(old_, new_, bits, oldbit)
  {
    var w := Weight(new_, bits);
    var n := PosToOrd(old_, oldbit, bits);
    if n < 0 || w == 0 { return oldbit; }
    r := OrdToPos(new_, n % w, bits);
  }

  /** b is among the first k bits of src, after remapping. */
  ghost predicate Mapped(src: seq<Word>, old_: seq<Word>, new_: seq<Word>, bits: nat, k: nat, b: nat)
    requires k <= bits <= 64 * |src| && bits <= 64 * |old_| && bits <= 64 * |new_|
  {
    exists a :: 0 <= a < k && Test(src, a) && RemapBit(old_, new_, bits, a) == b
  }

  /** bitmap_remap: dst is the image of src under RemapBit; dst == src is left alone. */
  method Remap(dst: array<Word>, src: array<Word>, old_: seq<Word>, new_: seq<Word>, bits: nat)
    requires bits <= 64 * dst.Length && bits <= 64 * src.Length && bits <= 64 * |old_| && bits <= 64 * |new_|
    modifies dst
    ensures dst == src ==> dst[..] == old(dst[..])
    ensures dst != src ==> forall b :: 0 <= b < bits ==> Test(dst[..], b) == Mapped(src[..], old_, new_, bits, bits, b)
  {
    hide RemapBit;
    if dst == src { return; }
    ZeroFill(dst);
    var w := Weight(new_, bits);
    var s := src[..];
    var oldbit := FindFirstBit(s, bits);
    while oldbit < bits
      invariant 0 <= oldbit <= bits && (oldbit < bits ==> Test(s, oldbit)) && src[..] == s
      invariant forall b :: 0 <= b < bits ==> Test(dst[..], b) == Mapped(s, old_, new_, bits, oldbit, b)
      decreases bits - oldbit
    {
      RemapInside(old_, new_, bits, oldbit);
      var n := PosToOrd(old_, oldbit, bits);
      var to: int;
      if n < 0 || w == 0 { to := oldbit; } else { to := OrdToPos(new_, n % w, bits); }
      assert to == RemapBit(old_, new_, bits, oldbit) by { RemapIs(old_, new_, bits, oldbit, n, w, to); }
      ghost var d := dst[..];
      Set(dst, to);
      var next := FindNextBit(s, bits, oldbit + 1);
      forall b | 0 <= b < bits ensures Test(dst[..], b) == Mapped(s, old_, new_, bits, next, b) {
        MappedStep(s, old_, new_, bits, oldbit, next, b);
      }
      oldbit := next;
    }
  }

  lemma RemapIs(old_: seq<Word>, new_: seq<Word>, bits: nat, p: nat, n: int, w: nat, to: int)
    requires bits <= 64 * |old_| && bits <= 64 * |new_| && p < bits && w == Count(new_, bits)
    requires n == if Test(old_, p) then Count(old_, p) else -1
    requires if n < 0 || w == 0 then to == p else to == if 0 <= n % w < bits then Select(new_, bits, n % w) else 0
    ensures to == RemapBit(old_, new_, bits, p)
  {
  }

  lemma MappedStep(s: seq<Word>, old_: seq<Word>, new_: seq<Word>, bits: nat, a: nat, next: nat, b: nat)
    requires bits <= 64 * |s| && bits <= 64 * |old_| && bits <= 64 * |new_| && a < bits && a < next <= bits && Test(s, a)
    requires forall i :: a < i < next ==> !Test(s, i)
    ensures Mapped(s, old_, new_, bits, next, b) == (b == RemapBit(old_, new_, bits, a) || Mapped(s, old_, new_, bits, a, b))
  {
    hide RemapBit;
  }

  method ZeroFill(dst: array<Word>)
    modifies dst
    ensures forall b :: 0 <= b < 64 * dst.Length ==> !Test(dst[..], b)
  {
    var k := 0;
    while k < dst.Length
      invariant 0 <= k <= dst.Length && forall j :: 0 <= j < k ==> dst[j] == Zero()
    {
      dst[k] := Zero();
      k := k + 1;
    }
  }

  method Set(dst: array<Word>, i: nat)
    requires i < 64 * dst.Length
    modifies dst
    ensures dst[..] == SetBit(old(dst[..]), i)
  {
    var w: Word := dst[i / 64][i % 64 := true];
    dst[i / 64] := w;
  }

  /** Remapping by (old, new) and back by (new, old) is the identity on old, if new is no lighter. */
  lemma RemapBack(old_: seq<Word>, new_: seq<Word>, bits: nat, p: nat)
    requires bits <= 64 * |old_| && bits <= 64 * |new_| && p < bits && Test(old_, p)
    requires Count(old_, bits) <= Count(new_, bits)
    ensures RemapBit(new_, old_, bits, RemapBit(old_, new_, bits, p)) == p
  {
    hide Count, Select, Test;
    RankSelectInverse(old_, bits);
    RankSelectInverse(new_, bits);
    var n := Count(old_, p);
    SmallMod(n, Count(new_, bits));
    SmallMod(n, Count(old_, bits));
    var q := Select(new_, bits, n);
    assert q < bits && Test(new_, q) && Count(new_, q) == n;
  }

  lemma SmallMod(n: nat, w: nat)
    requires n < w
    ensures n % w == n
  {
  }

  /** ... so a bitmap inside old survives the two remappings. */
  lemma RemapRoundTrip(src: seq<Word>, mid: seq<Word>, old_: seq<Word>, new_: seq<Word>, bits: nat, b: nat)
    requires bits <= 64 * |src| && bits <= 64 * |mid| && bits <= 64 * |old_| && bits <= 64 * |new_| && b < bits
    requires Count(old_, bits) <= Count(new_, bits)
    requires forall a :: 0 <= a < bits && Test(src, a) ==> Test(old_, a)
    requires forall c :: 0 <= c < bits ==> Test(mid, c) == Mapped(src, old_, new_, bits, bits, c)
    ensures Mapped(mid, new_, old_, bits, bits, b) == Test(src, b)
  {
    hide RemapBit;
    if Mapped(mid, new_, old_, bits, bits, b) {
      var c :| 0 <= c < bits && Test(mid, c) && RemapBit(new_, old_, bits, c) == b;
      var a :| 0 <= a < bits && Test(src, a) && RemapBit(old_, new_, bits, a) == c;
      RemapBack(old_, new_, bits, a);
    }
    if Test(src, b) {
      RemapBack(old_, new_, bits, b);
      RemapInside(old_, new_, bits, b);
      var c := RemapBit(old_, new_, bits, b);
      assert Mapped(src, old_, new_, bits, bits, c);
    }
  }

  // ----- onto and fold -----

  method CopyBit(dst: array<Word>, n: nat, o: seq<Word>, m: nat)
    requires n < 64 * dst.Length && m < 64 * |o|
    modifies dst
    ensures forall b :: 0 <= b < 64 * dst.Length ==> Test(dst[..], b) == ((b == n && Test(o, m)) || Test(old(dst[..]), b))
  {
    if Test(o, m) { Set(dst, n); }
  }

  /** bitmap_onto: bit n of dst is set iff n is the m-th set bit of relmap and bit m of orig is set. */
  method Onto(dst: array<Word>, orig: array<Word>, relmap: seq<Word>, bits: nat)
    requires bits <= 64 * dst.Length && bits <= 64 * orig.Length && bits <= 64 * |relmap|
    modifies dst
    ensures dst == orig ==> dst[..] == old(dst[..])
    ensures dst != orig ==> forall b :: 0 <= b < bits ==> Test(dst[..], b) == (Test(relmap, b) && Test(orig[..], Count(relmap, b)))
  {
    hide SetBit, Count, Test;
    if dst == orig { return; }
    ZeroFill(dst);
    var o := orig[..];
    var m := 0;
    var n := FindFirstBit(relmap, bits);
    NoneBetween(relmap, 0, n);
    assert Count(relmap, 0) == 0 by { CountZero(relmap); }
    while n < bits
      invariant 0 <= n <= bits && m == Count(relmap, n) && (n < bits ==> Test(relmap, n)) && orig[..] == o
      invariant forall b :: n <= b < bits ==> !Test(dst[..], b)
      invariant forall b :: 0 <= b < n ==> Test(dst[..], b) == (Test(relmap, b) && Test(o, Count(relmap, b)))
      decreases bits - n
    {
      CopyBit(dst, n, o, m);
      m := m + 1;
      var next := FindNextBit(relmap, bits, n + 1);
      NextRank(relmap, n, next);
      n := next;
    }
  }

  lemma CountZero(m: seq<Word>)
    ensures Count(m, 0) == 0
  {
  }

  lemma NextRank(m: seq<Word>, n: nat, next: nat)
    requires n < next <= 64 * |m| && Test(m, n) && forall i :: n < i < next ==> !Test(m, i)
    ensures Count(m, next) == Count(m, n) + 1
  {
    NoneBetween(m, n + 1, next);
  }

  ghost predicate Folded(orig: seq<Word>, sz: nat, k: nat, b: nat)
    requires k <= 64 * |orig| && sz > 0
  {
    exists a :: 0 <= a < k && Test(orig, a) && a % sz == b
  }

  /** bitmap_fold: bit m of orig goes to bit m mod sz of dst. */
  method Fold(dst: array<Word>, orig: array<Word>, sz: nat, bits: nat)
    requires bits <= 64 * dst.Length && bits <= 64 * orig.Length && sz > 0
    modifies dst
    ensures dst == orig ==> dst[..] == old(dst[..])
    ensures dst != orig ==> forall b :: 0 <= b < bits ==> Test(dst[..], b) == Folded(orig[..], sz, bits, b)
  {
    hide Folded;
    if dst == orig { return; }
    ZeroFill(dst);
    var o := orig[..];
    var oldbit := FindFirstBit(o, bits);
    FoldNone(o, sz, oldbit);
    while oldbit < bits
      invariant 0 <= oldbit <= bits && (oldbit < bits ==> Test(o, oldbit)) && orig[..] == o
      invariant forall b :: 0 <= b < bits ==> Test(dst[..], b) == Folded(o, sz, oldbit, b)
      decreases bits - oldbit
    {
      Remainder(oldbit, sz);
      Set(dst, oldbit % sz);
      var next := FindNextBit(o, bits, oldbit + 1);
      forall b | 0 <= b < bits ensures Test(dst[..], b) == Folded(o, sz, next, b) {
        FoldStep(o, sz, oldbit, next, b);
      }
      oldbit := next;
    }
  }

  lemma Remainder(a: nat, sz: nat)
    requires sz > 0
    ensures 0 <= a % sz <= a
  {
  }

  lemma FoldNone(o: seq<Word>, sz: nat, k: nat)
    requires sz > 0 && k <= 64 * |o| && forall i :: 0 <= i < k ==> !Test(o, i)
    ensures forall b :: 0 <= b < 64 * |o| ==> !Folded(o, sz, k, b)
  {
  }

  lemma FoldStep(o: seq<Word>, sz: nat, a: nat, next: nat, b: nat)
    requires sz > 0 && a < next <= 64 * |o| && Test(o, a) && forall i :: a < i < next ==> !Test(o, i)
    ensures Folded(o, sz, next, b) == (b == a % sz || Folded(o, sz, a, b))
  {
  }

  /** Folding by the weight of relmap and then mapping onto it sets exactly the bits select(relmap, m mod W). */
  lemma FoldThenOnto(orig: seq<Word>, tmp: seq<Word>, relmap: seq<Word>, bits: nat, b: nat)
    requires bits <= 64 * |orig| && bits <= 64 * |tmp| && bits <= 64 * |relmap| && b < bits
    requires Count(relmap, bits) > 0
    requires forall c :: 0 <= c < bits ==> Test(tmp, c) == Folded(orig, Count(relmap, bits), bits, c)
    ensures (Test(relmap, b) && Test(tmp, Count(relmap, b)))
       <==> exists a :: 0 <= a < bits && Test(orig, a) && Select(relmap, bits, a % Count(relmap, bits)) == b
  {
    var w := Count(relmap, bits);
    RankSelectInverse(relmap, bits);
    if Test(relmap, b) && Test(tmp, Count(relmap, b)) {
      assert Folded(orig, w, bits, Count(relmap, b));
      var a :| 0 <= a < bits && Test(orig, a) && a % w == Count(relmap, b);
    }
    if exists a :: 0 <= a < bits && Test(orig, a) && Select(relmap, bits, a % w) == b {
      var a :| 0 <= a < bits && Test(orig, a) && Select(relmap, bits, a % w) == b;
      assert Folded(orig, w, bits, a % w);
    }
  }
}
