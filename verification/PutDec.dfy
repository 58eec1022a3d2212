/**
 The decimal conversions of lib/vsprintf.c.  Both algorithms avoid division by ten: they
 multiply by a rounded reciprocal and shift.  Each writes the digits of n in reverse order.
 Arithmetic is that of the source: 32-bit unsigned unless cast to 64 bits.
 */
module PutDec {
  import opened Arith
  import opened Digits

  /** The characters of decimal digits. */
  function Chars(ds: seq<nat>): (r: seq<char>)
    requires forall i :: 0 <= i < |ds| ==> ds[i] < 10
    ensures |r| == |ds| && forall i :: 0 <= i < |ds| ==> r[i] == Char(ds[i])
  {
    seq(|ds|, i requires 0 <= i < |ds| => Char(ds[i]))
  }

  function Char(d: nat): char
    requires d < 10
  {
    '0' + d as char
  }

  /** The digits of n as put_dec leaves them: least significant first, no leading zero. */
  function RevDecimal(n: nat): seq<char> { Chars(RevDigits(n, 10)) }

  lemma CharsConcat(a: seq<nat>, b: seq<nat>)
    requires forall i :: 0 <= i < |a| ==> a[i] < 10
    requires forall i :: 0 <= i < |b| ==> b[i] < 10
    ensures Chars(a + b) == Chars(a) + Chars(b)
  {
  }

  // ----- Reciprocal multiplication, with the exact range of each constant -----

  /** (x * k) >> s on 32-bit operands. */
  function MulShift32(x: nat, k: nat, pow: nat): nat
    requires pow >= 1
  {
    x * k % U32 / pow
  }

  /** (x * (uint64_t)k) >> s. */
  function MulShift64(x: nat, k: nat, pow: nat): nat
    requires pow >= 1
  {
    x * k % U64 / pow
  }

  lemma Tenth32(x: nat)
    requires x < 1073741829
    ensures MulShift64(x, 0x1999999a, U32) == x / 10
  {
    var a, b := x / 10, x % 10;
    assert x * 0x1999999a == a * U32 + (4 * a + b * 0x1999999a);
  }

  lemma Tenth16(x: nat)
    requires x < 16389
    ensures MulShift32(x, 0x199a, 0x10000) == x / 10
  {
  }

  lemma Tenth15(x: nat)
    requires x < 16389
    ensures MulShift32(x, 0xccd, 0x8000) == x / 10
  {
  }

  lemma Tenth11(x: nat)
    requires x < 1029
    ensures MulShift32(x, 0xcd, 0x800) == x / 10
  {
  }

  lemma TenThousandth(x: nat)
    requires x < 1128869999
    ensures MulShift64(x, 0x346DC5D7, 0x800_0000_0000) == x / 10000
  {
    var a, b := x / 10000, x % 10000;
    var rest := 7792 * a + b * 0x346DC5D7;
    assert x * 0x346DC5D7 == a * 0x800_0000_0000 + rest;
    assert rest < 0x800_0000_0000;
    DivideIs(x * 0x346DC5D7, 0x800_0000_0000, a, rest);
  }

  /** ... and the bound is sharp. */
  lemma TenThousandthBound()
    ensures MulShift64(1128869999, 0x346DC5D7, 0x800_0000_0000) == 1128869999 / 10000 + 1
  {
    assert 1128869999 * 0x346DC5D7 % U64 == 1128869999 * 0x346DC5D7;
  }

  // ----- Groups of digits -----

  lemma NineDigits(q: nat)
    requires q < 10_0000_0000
    ensures var q1 := q / 10; var q2 := q1 / 10; var q3 := q2 / 10; var q4 := q3 / 10; var q5 := q4 / 10;
            var q6 := q5 / 10; var q7 := q6 / 10; var q8 := q7 / 10;
            q8 < 10 && RevFixed(q, 9) == [q % 10, q1 % 10, q2 % 10, q3 % 10, q4 % 10, q5 % 10, q6 % 10, q7 % 10, q8]
  {
    var q3 := q / 10 / 10 / 10;
    var q6 := q3 / 10 / 10 / 10;
    ThreeDigits(q, 6);
    ThreeDigits(q3, 3);
    ThreeDigits(q6, 0);
  }

  lemma ThreeDigits(q: nat, k: nat)
    ensures RevFixed(q, k + 3) == [q % 10, q / 10 % 10, q / 10 / 10 % 10] + RevFixed(q / 10 / 10 / 10, k)
  {
    assert RevFixed(q, k + 3) == [q % 10] + RevFixed(q / 10, k + 2);
    assert RevFixed(q / 10, k + 2) == [q / 10 % 10] + RevFixed(q / 10 / 10, k + 1);
    assert RevFixed(q / 10 / 10, k + 1) == [q / 10 / 10 % 10] + RevFixed(q / 10 / 10 / 10, k);
  }

  /** put_dec_full9: nine digits of any q up to 999999999. */
  method PutDecFull9(buf: seq<char>, q0: nat) returns (r: seq<char>)
    requires q0 < 10_0000_0000
    ensures r == buf + Chars(RevFixed(q0, 9))
  {
    hide MulShift32, MulShift64, RevFixed, Chars;
    var q := q0;
    Tenth32(q);
    var p := MulShift64(q, 0x1999999a, U32);
    r := buf + [Char(q - 10 * p)];
    Tenth32(p);
    q := MulShift64(p, 0x1999999a, U32);
    r := r + [Char(p - 10 * q)];
    Tenth32(q);
    p := MulShift64(q, 0x1999999a, U32);
    r := r + [Char(q - 10 * p)];
    Tenth32(p);
    q := MulShift64(p, 0x1999999a, U32);
    r := r + [Char(p - 10 * q)];
    Tenth32(q);
    p := MulShift64(q, 0x1999999a, U32);
    r := r + [Char(q - 10 * p)];
    Tenth16(p);
    q := MulShift32(p, 0x199a, 0x10000);
    r := r + [Char(p - 10 * q)];
    Tenth11(q);
    p := MulShift32(q, 0xcd, 0x800);
    r := r + [Char(q - 10 * p)];
    Tenth11(p);
    q := MulShift32(p, 0xcd, 0x800);
    r := r + [Char(p - 10 * q)] + [Char(q)];
    NineDigits(q0);
  }

  lemma RevDecimalStep(n: nat)
    ensures RevDecimal(n) == [Char(n % 10)] + if n < 10 then [] else RevDecimal(n / 10)
  {
    if n >= 10 {
      assert RevDigits(n, 10) == [n % 10] + RevDigits(n / 10, 10);
      CharsConcat([n % 10], RevDigits(n / 10, 10));
    }
  }

  /** put_dec_trunc8: the digits of r without leading zeros. */
  method PutDecTrunc8(buf: seq<char>, r0: nat) returns (out: seq<char>)
    requires r0 < 1073741829
    ensures out == buf + RevDecimal(r0)
  {
    hide MulShift32, MulShift64, RevDecimal;
    var r := r0;
    out := buf;
    while r >= 10000
      invariant 0 <= r <= r0 && out + RevDecimal(r) == buf + RevDecimal(r0)
    {
      RevDecimalStep(r);
      var q := r;
      Tenth32(r);
      r := MulShift64(r, 0x1999999a, U32);
      out := out + [Char(q - 10 * r)];
    }
    RevDecimalStep(r);
    RevDecimalStep(r / 10);
    RevDecimalStep(r / 10 / 10);
    RevDecimalStep(r / 10 / 10 / 10);
    Tenth16(r);
    var q := MulShift32(r, 0x199a, 0x10000);
    out := out + [Char(r - 10 * q)];
    if q == 0 { return; }
    Tenth11(q);
    r := MulShift32(q, 0xcd, 0x800);
    out := out + [Char(q - 10 * r)];
    if r == 0 { return; }
    Tenth11(r);
    q := MulShift32(r, 0xcd, 0x800);
    out := out + [Char(r - 10 * q)];
    if q == 0 { return; }
    out := out + [Char(q)];
  }

  // ----- First algorithm: groups of nine digits -----

  lemma NineAtATime(n: nat)
    requires n >= 10_0000_0000
    ensures RevDecimal(n) == Chars(RevFixed(n % 10_0000_0000, 9)) + RevDecimal(n / 10_0000_0000)
  {
    hide RevFixed, Chars, RevDigits, Drop, Pow10;
    DropNine(n);
    PowNine();
    SplitDigits(n, 9);
    LowDigits(n / 10_0000_0000, n % 10_0000_0000, 9);
    assert n / 10_0000_0000 * 10_0000_0000 + n % 10_0000_0000 == n;
    CharsConcat(RevFixed(n, 9), RevDigits(n / 10_0000_0000, 10));
  }

  lemma NineExactly(n: nat)
    requires 1_0000_0000 <= n < 10_0000_0000
    ensures RevDecimal(n) == Chars(RevFixed(n, 9))
  {
    DropNine(n);
    DropDrop(n, 8, 1);
    assert Drop(n, 8) == n / 1_0000_0000 by { DropDrop(n, 4, 4); DropFour(n); DropFour(n / 1_0000); }
    StripZeros(n, 9, 9);
    assert RevFixed(n, 9)[..9] == RevFixed(n, 9);
  }

  /** put_dec with 64-bit division: all digits of n. */
  method PutDecGeneric(buf: seq<char>, n0: nat) returns (out: seq<char>)
    requires n0 < U64
    ensures out == buf + RevDecimal(n0)
  {
    hide RevDecimal, RevFixed, Chars;
    var n := n0;
    out := buf;
    if n >= 1_0000_0000 {
      while n >= 10_0000_0000
        invariant out + RevDecimal(n) == buf + RevDecimal(n0)
      {
        NineAtATime(n);
        out := PutDecFull9(out, n % 10_0000_0000);
        n := n / 10_0000_0000;
      }
      if n >= 1_0000_0000 {
        NineExactly(n);
        out := PutDecFull9(out, n);
        return;
      }
    }
    out := PutDecTrunc8(out, n);
  }

  // ----- Second algorithm: 16-bit limbs, groups of four digits -----

  method PutDecFull4(buf: seq<char>, q0: nat) returns (r: seq<char>)
    requires q0 < 1_0000
    ensures r == buf + Chars(RevFixed(q0, 4))
  {
    hide MulShift32, RevFixed, Chars;
    Tenth15(q0);
    var p := MulShift32(q0, 0xccd, 0x8000);
    r := buf + [Char(q0 - 10 * p)];
    Tenth11(p);
    var q := MulShift32(p, 0xcd, 0x800);
    r := r + [Char(p - 10 * q)];
    Tenth11(q);
    p := MulShift32(q, 0xcd, 0x800);
    r := r + [Char(q - 10 * p)] + [Char(p)];
    ThreeDigits(q0, 1);
    OneDigit(q0 / 10 / 10 / 10);
  }

  lemma OneDigit(q: nat)
    requires q < 10
    ensures RevFixed(q, 1) == [q]
  {
    assert RevFixed(q, 1) == [q % 10] + RevFixed(q / 10, 0);
  }

  /** put_dec_helper4: writes x % 10000 and returns x / 10000, for every x it is asked to convert. */
  method PutDecHelper4(buf: seq<char>, x: nat) returns (r: seq<char>, q: nat)
    requires x <= 1125520955
    ensures r == buf + Chars(RevFixed(x, 4)) && q == x / 1_0000
  {
    hide MulShift64, RevFixed, Chars, Pow10;
    TenThousandth(x);
    q := MulShift64(x, 0x346DC5D7, 0x800_0000_0000);
    r := PutDecFull4(buf, x - q * 1_0000);
    PowFour();
    LowDigits(q, x - q * 1_0000, 4);
  }

  /** A number with the low four digits of q below those of `high`. */
  function Join(high: nat, q: nat): nat { high * 1_0000 + q % 1_0000 }

  /** The value of four limbs of four decimal digits with carries, after the 16-bit limbs are spread out. */
  ghost predicate LimbsOk(n: nat, d0: nat, d1: nat, d2: nat, d3: nat) {
    var q0 := 656 * d3 + 7296 * d2 + 5536 * d1 + d0;
    var q1 := q0 / 1_0000 + 7671 * d3 + 9496 * d2 + 6 * d1;
    var q2 := q1 / 1_0000 + 4749 * d3 + 42 * d2;
    var q3 := q2 / 1_0000 + 281 * d3;
    && q0 <= 1125520955 && q1 <= 1125520955 && q2 <= 1125520955 && q3 < 1_0000_0000
    && n == Join(Join(Join(q3, q2), q1), q0)
  }

  lemma Limbs(n: nat, d1: nat, d2: nat, d3: nat)
    requires n < U64 && d1 == n % U32 / 0x1_0000 && d2 == n / U32 % 0x1_0000 && d3 == n / U32 / 0x1_0000
    ensures LimbsOk(n, n % 0x1_0000, d1, d2, d3)
  {
    assert n == ((d3 * 0x1_0000 + d2) * 0x1_0000 + d1) * 0x1_0000 + n % 0x1_0000;
    assert d1 < 0x1_0000 && d2 < 0x1_0000 && d3 < 0x1_0000;
  }

  lemma FourOf(q: nat, high: nat)
    ensures RevFixed(Join(high, q), 4) == RevFixed(q, 4) && Drop(Join(high, q), 4) == high
  {
    hide RevFixed, Pow10, Drop;
    PowFour();
    LowDigits(high, q % 1_0000, 4);
    LowDigits(q / 1_0000, q % 1_0000, 4);
    DropFour(high * 1_0000 + q % 1_0000);
  }

  lemma TwelveDigits(q0: nat, q1: nat, q2: nat, q3: nat)
    ensures var n := Join(Join(Join(q3, q2), q1), q0);
            RevFixed(n, 12) == RevFixed(q0, 4) + RevFixed(q1, 4) + RevFixed(q2, 4) && Drop(n, 12) == q3
  {
    hide RevFixed, Drop, Join;
    var a := Join(q3, q2);
    var b := Join(a, q1);
    FourOf(q0, b);
    FourOf(q1, a);
    FourOf(q2, q3);
    Twelve(Join(b, q0), b, a, q3);
  }

  lemma TwelveChars(q0: nat, q1: nat, q2: nat, q3: nat)
    ensures var n := Join(Join(Join(q3, q2), q1), q0);
            && Chars(RevFixed(n, 12)) == Chars(RevFixed(q0, 4)) + Chars(RevFixed(q1, 4)) + Chars(RevFixed(q2, 4))
            && Drop(n, 12) == q3
  {
    hide RevFixed, Drop, Join, Chars;
    TwelveDigits(q0, q1, q2, q3);
    CharsConcat(RevFixed(q0, 4), RevFixed(q1, 4));
    CharsConcat(RevFixed(q0, 4) + RevFixed(q1, 4), RevFixed(q2, 4));
  }

  lemma Twelve(n: nat, b: nat, a: nat, top: nat)
    requires Drop(n, 4) == b && Drop(b, 4) == a && Drop(a, 4) == top
    ensures RevFixed(n, 12) == RevFixed(n, 4) + RevFixed(b, 4) + RevFixed(a, 4) && Drop(n, 12) == top
  {
    hide RevFixed, Drop;
    DropDrop(n, 4, 8);
    DropDrop(b, 4, 4);
    FixedSplit(n, 4, 8);
    FixedSplit(b, 4, 4);
  }

  /** put_dec without 64-bit division: the same digits. */
  method PutDecLimbs(buf: seq<char>, n: nat) returns (out: seq<char>)
    requires n < U64
    ensures out == buf + RevDecimal(n)
  {
    hide RevDecimal, RevFixed, Chars, Drop, Join;
    if n < 1_0000_0000 {
      out := PutDecTrunc8(buf, n);
      return;
    }
    var d1 := n % U32 / 0x1_0000;
    var h := n / U32;
    var d2 := h % 0x1_0000;
    var d3 := h / 0x1_0000;
    Limbs(n, d1, d2, d3);
    out := PutLimbs(buf, n, n % 0x1_0000, d1, d2, d3);
  }

  /** put_dec from the 16-bit limbs of the number. */
  method PutLimbs(buf: seq<char>, n: nat, d0: nat, d1: nat, d2: nat, d3: nat) returns (out: seq<char>)
    requires n > 0 && LimbsOk(n, d0, d1, d2, d3)
    ensures out == buf + RevDecimal(n)
  {
    hide RevDecimal, RevFixed, Chars, Drop, Join;
    var q0 := 656 * d3 + 7296 * d2 + 5536 * d1 + d0;
    var q;
    out, q := PutDecHelper4(buf, q0);
    var q1 := q + 7671 * d3 + 9496 * d2 + 6 * d1;
    out, q := PutDecHelper4(out, q1);
    var q2 := q + 4749 * d3 + 42 * d2;
    out, q := PutDecHelper4(out, q2);
    var q3 := q + 281 * d3;
    TwelveChars(q0, q1, q2, q3);
    Join3(buf, Chars(RevFixed(q0, 4)), Chars(RevFixed(q1, 4)), Chars(RevFixed(q2, 4)));
    if q3 != 0 {
      AboveTwelve(n, q3);
      out := PutDecTrunc8(out, q3);
    } else {
      out := StripTrailing(buf, out, n);
    }
  }

  lemma Join3(buf: seq<char>, a: seq<char>, b: seq<char>, c: seq<char>)
    ensures buf + a + b + c == buf + (a + b + c)
  {
  }

  lemma AboveTwelve(n: nat, q: nat)
    requires Drop(n, 12) == q != 0
    ensures RevDecimal(n) == Chars(RevFixed(n, 12)) + RevDecimal(q)
  {
    hide Chars, Drop;
    SplitDigits(n, 12);
    CharsConcat(RevFixed(n, 12), RevDigits(q, 10));
  }

  /** while (buf[-1] == '0') --buf: leading zeros of a number below 10^12 are dropped. */
  method StripTrailing(buf: seq<char>, full: seq<char>, n: nat) returns (out: seq<char>)
    requires n > 0 && Drop(n, 12) == 0 && full == buf + Chars(RevFixed(n, 12))
    ensures out == buf + RevDecimal(n)
  {
    hide RevFixed, Chars;
    ghost var j := 12;
    out := full;
    while out[|out| - 1] == '0'
      invariant 1 <= j <= 12 && Drop(n, j) == 0 && out == full[..|buf| + j]
      decreases j
    {
      assert out[|out| - 1] == Char(RevFixed(n, 12)[j - 1]);
      if j == 1 || Drop(n, j - 1) != 0 {
        TopDigit(n, j);
        assert false;
      }
      out := out[..|out| - 1];
      j := j - 1;
    }
    if j > 1 && Drop(n, j - 1) == 0 {
      ZeroAbove(n, j);
      assert false;
    }
    StripZeros(n, 12, j);
    assert out == buf + Chars(RevFixed(n, 12))[..j];
    assert Chars(RevFixed(n, 12))[..j] == Chars(RevFixed(n, 12)[..j]);
  }

  lemma {:induction false} DigitAt(n: nat, k: nat, i: nat)
    requires i < k
    ensures RevFixed(n, k)[i] == Drop(n, i) % 10 && Drop(n, i + 1) == Drop(n, i) / 10
  {
    if i == 0 {
    } else {
      DigitAt(n / 10, k - 1, i - 1);
    }
    assert Drop(n / 10, 0) == n / 10;
  }

  lemma TopDigit(n: nat, j: nat)
    requires 1 <= j <= 12 && n > 0 && Drop(n, j) == 0 && (j == 1 || Drop(n, j - 1) != 0)
    ensures RevFixed(n, 12)[j - 1] != 0
  {
    DigitAt(n, 12, j - 1);
  }

  lemma ZeroAbove(n: nat, j: nat)
    requires 1 < j <= 12 && Drop(n, j - 1) == 0
    ensures RevFixed(n, 12)[j - 1] == 0
  {
    DigitAt(n, 12, j - 1);
  }

  /** No leading zero: the last character written is not '0' unless n is 0. */
  lemma {:induction false} NoLeadingZero(n: nat)
    ensures n > 0 ==> RevDecimal(n)[|RevDecimal(n)| - 1] != '0'
    ensures n == 0 ==> RevDecimal(n) == "0"
  {
    RevDecimalStep(n);
    if n < 10 {
    } else {
      NoLeadingZero(n / 10);
    }
  }

  // ----- num_to_str -----

  function Decimal(n: nat): seq<char> { Reverse(RevDecimal(n)) }

  /** num_to_str: the decimal string if it fits into `size` characters, otherwise 0 and buf is untouched. */
  method NumToStr(buf: array<char>, size: int, num: nat) returns (len: nat)
    requires num < U64 && size <= buf.Length
    modifies buf
    ensures |Decimal(num)| > size ==> len == 0 && buf[..] == old(buf[..])
    ensures |Decimal(num)| <= size ==> len == |Decimal(num)| && buf[..] == Decimal(num) + old(buf[..])[len..]
  {
    hide RevDecimal, Reverse;
    var tmp: seq<char>;
    if num <= 9 {
      tmp := ['0' + num as char];
      RevDecimalStep(num);
    } else {
      tmp := PutDecGeneric([], num);
    }
    if |tmp| > size { return 0; }
    len := |tmp|;
    var idx := 0;
    while idx < len
      invariant 0 <= idx <= len
      invariant forall i :: 0 <= i < idx ==> buf[i] == tmp[len - 1 - i]
      invariant forall i :: idx <= i < buf.Length ==> buf[i] == old(buf[i])
    {
      buf[idx] := tmp[len - idx - 1];
      idx := idx + 1;
    }
  }
}
