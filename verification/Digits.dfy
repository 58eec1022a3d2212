/** Positional notation: what the digit strings of lib/vsprintf.c and lib/kstrtox.c denote. */
module Digits {

  const U32 := 0x1_0000_0000
  const U64 := 0x1_0000_0000_0000_0000

  /** The bases that number() prints in. */
  predicate PrintBase(b: nat) { b == 8 || b == 10 || b == 16 }

  /** n % base and n / base. */
  function Low(n: nat, base: nat): nat
    requires PrintBase(base)
  {
    if base == 8 then n % 8 else if base == 10 then n % 10 else n % 16
  }

  function High(n: nat, base: nat): nat
    requires PrintBase(base)
  {
    if base == 8 then n / 8 else if base == 10 then n / 10 else n / 16
  }

  /** The digits of n, least significant first, without leading zeros. */
  function RevDigits(n: nat, base: nat): (r: seq<nat>)
    requires PrintBase(base)
    ensures |r| >= 1 && forall i :: 0 <= i < |r| ==> r[i] < base
  {
    if n < base then [n] else [Low(n, base)] + RevDigits(High(n, base), base)
  }

  /** Exactly k decimal digits, least significant first. */
  function RevFixed(n: nat, k: nat): (r: seq<nat>)
    ensures |r| == k && forall i :: 0 <= i < |r| ==> r[i] < 10
  {
    if k == 0 then [] else [n % 10] + RevFixed(n / 10, k - 1)
  }

  /** n without its k low decimal digits. */
  function Drop(n: nat, k: nat): nat { if k == 0 then n else Drop(n / 10, k - 1) }

  /** The value of a digit string, most significant digit first. */
  function Value(ds: seq<nat>, base: nat): nat {
    if ds == [] then 0 else Value(ds[..|ds| - 1], base) * base + ds[|ds| - 1]
  }

  function Reverse<T>(s: seq<T>): (r: seq<T>)
    ensures |r| == |s| && forall i :: 0 <= i < |s| ==> r[i] == s[|s| - 1 - i]
  {
    if s == [] then [] else Reverse(s[1..]) + [s[0]]
  }

  /** The digits of n are its k low digits followed by the digits of the rest. */
  lemma {:induction false} SplitDigits(n: nat, k: nat)
    requires Drop(n, k) >= 1
    ensures RevDigits(n, 10) == RevFixed(n, k) + RevDigits(Drop(n, k), 10)
  {
    if k == 0 {
    } else {
      DropBound(n / 10, k - 1);
      SplitDigits(n / 10, k - 1);
    }
  }

  lemma {:induction false} DropBound(n: nat, k: nat)
    ensures Drop(n, k) <= n
  {
    if k == 0 {
    } else {
      DropBound(n / 10, k - 1);
    }
  }

  lemma {:induction false} FixedSplit(n: nat, j: nat, k: nat)
    ensures RevFixed(n, j + k) == RevFixed(n, j) + RevFixed(Drop(n, j), k)
  {
    if j == 0 {
    } else {
      FixedSplit(n / 10, j - 1, k);
      assert RevFixed(n, j) == [n % 10] + RevFixed(n / 10, j - 1);
    }
  }

  function Pow10(k: nat): nat { if k == 0 then 1 else 10 * Pow10(k - 1) }

  /** Only the low k digits matter. */
  lemma {:induction false} LowDigits(z: nat, r: nat, k: nat)
    ensures RevFixed(z * Pow10(k) + r, k) == RevFixed(r, k)
  {
    if k == 0 {
    } else {
      var w := z * Pow10(k - 1);
      TenTimes(z, Pow10(k - 1));
      LastDigit(w, r);
      LowDigits(z, r / 10, k - 1);
    }
  }

  lemma TenTimes(z: nat, p: nat)
    ensures z * (10 * p) == 10 * (z * p)
  {
  }

  lemma LastDigit(w: nat, r: nat)
    ensures (10 * w + r) / 10 == w + r / 10 && (10 * w + r) % 10 == r % 10
  {
  }

  lemma DropFour(n: nat)
    ensures Drop(n, 4) == n / 1_0000
  {
    assert Drop(n, 4) == Drop(n / 10, 3) == Drop(n / 10 / 10, 2);
    assert Drop(n / 10 / 10, 2) == Drop(n / 10 / 10 / 10, 1) == Drop(n / 10 / 10 / 10 / 10, 0);
  }

  lemma {:induction false} DropDrop(n: nat, j: nat, k: nat)
    ensures Drop(n, j + k) == Drop(Drop(n, j), k)
  {
    if j == 0 {
    } else {
      DropDrop(n / 10, j - 1, k);
    }
  }

  lemma DropNine(n: nat)
    ensures Drop(n, 9) == n / 10_0000_0000
  {
    DropDrop(n, 4, 5);
    DropDrop(Drop(n, 4), 4, 1);
    DropFour(n);
    DropFour(n / 1_0000);
    assert Drop(n / 1_0000 / 1_0000, 1) == n / 1_0000 / 1_0000 / 10;
  }

  lemma PowFour()
    ensures Pow10(4) == 1_0000
  {
    assert Pow10(4) == 10 * Pow10(3) == 100 * Pow10(2);
  }

  lemma PowNine()
    ensures Pow10(9) == 10_0000_0000
  {
    PowFour();
    assert Pow10(6) == 10 * Pow10(5) == 100 * Pow10(4);
    assert Pow10(8) == 10 * Pow10(7) == 100 * Pow10(6);
    assert Pow10(9) == 10 * Pow10(8);
  }

  /** Without its leading zeros a fixed-width number is the number. */
  lemma {:induction false} StripZeros(n: nat, k: nat, j: nat)
    requires j <= k && Drop(n, j) == 0 && j >= 1 && (j > 1 ==> Drop(n, j - 1) != 0)
    ensures RevFixed(n, k)[..j] == RevDigits(n, 10)
    ensures forall i :: j <= i < k ==> RevFixed(n, k)[i] == 0
  {
    var r := RevFixed(n, k);
    assert r == [n % 10] + RevFixed(n / 10, k - 1);
    if j == 1 {
      assert Drop(n, 1) == Drop(n / 10, 0);
      ZeroDigits(k - 1);
      assert r[..1] == [n];
    } else {
      assert Drop(n, j) == Drop(n / 10, j - 1) && Drop(n, j - 1) == Drop(n / 10, j - 2);
      StripZeros(n / 10, k - 1, j - 1);
      DropBound(n / 10, j - 2);
      assert r[..j] == [n % 10] + RevFixed(n / 10, k - 1)[..j - 1];
    }
  }

  lemma {:induction false} ZeroDigits(k: nat)
    ensures forall i :: 0 <= i < k ==> RevFixed(0, k)[i] == 0
  {
    if k == 0 {
    } else {
      ZeroDigits(k - 1);
      assert RevFixed(0, k) == [0] + RevFixed(0, k - 1);
    }
  }

  lemma HighLow(n: nat, base: nat)
    requires PrintBase(base)
    ensures High(n, base) * base + Low(n, base) == n && (n >= base ==> High(n, base) < n)
  {
    if base == 8 {
      assert n == n / 8 * 8 + n % 8;
    } else if base == 10 {
      assert n == n / 10 * 10 + n % 10;
    } else {
      assert n == n / 16 * 16 + n % 16;
    }
  }

  lemma ValueLast(ds: seq<nat>, d: nat, base: nat)
    ensures Value(ds + [d], base) == Value(ds, base) * base + d
  {
    assert (ds + [d])[..|ds|] == ds;
  }

  /** A digit string read back, most significant digit first, has the value it was made from. */
  lemma {:induction false} ValueOfRevDigits(n: nat, base: nat)
    requires PrintBase(base)
    ensures Value(Reverse(RevDigits(n, base)), base) == n
    decreases n
  {
    hide High, Low, Value;
    HighLow(n, base);
    if n < base {
      ValueEmptyLast(n, base);
      assert Reverse([n]) == [n];
    } else {
      var rest := RevDigits(High(n, base), base);
      ValueOfRevDigits(High(n, base), base);
      ReverseFirst(Low(n, base), rest);
      ValueLast(Reverse(rest), Low(n, base), base);
    }
  }

  lemma ValueEmptyLast(d: nat, base: nat)
    ensures Value([d], base) == d
  {
    assert [d][..0] == [];
  }

  lemma ReverseFirst(d: nat, rest: seq<nat>)
    ensures Reverse([d] + rest) == Reverse(rest) + [d]
  {
    assert ([d] + rest)[1..] == rest;
  }
}
