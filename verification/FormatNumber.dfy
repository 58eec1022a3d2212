/**
 number() and string() of lib/vsprintf.c: padding, sign, prefix and digits of one conversion,
 written through a pointer that keeps counting after the end of the buffer.
 */
module FormatNumber {
  import opened Digits
  import PutDec

  /** The output pointer: characters are stored while it is below `end` and counted always. */
  class Writer {
    const buf: array<char>
    const end: nat
    var pos: nat
    ghost var out: seq<char>
    ghost const initial: seq<char>

    ghost predicate Ok()
      reads this, buf
    {
      && end <= buf.Length == |initial| && pos == |out|
      && (forall i :: 0 <= i < buf.Length ==> buf[i] == if i < pos && i < end then out[i] else initial[i])
    }

    constructor (buf: array<char>, end: nat)
      requires end <= buf.Length
      ensures Ok() && out == [] && this.buf == buf && this.end == end && initial == buf[..]
    {
      this.buf, this.end, pos := buf, end, 0;
      out, initial := [], buf[..];
    }

    method Put(c: char)
      requires Ok()
      modifies this, buf
      ensures Ok() && out == old(out) + [c]
    {
      if pos < end { buf[pos] := c; }
      pos := pos + 1;
      out := out + [c];
    }

    /** while (--n >= 0) put c */
    method Fill(c: char, n: int)
      requires Ok()
      modifies this, buf
      ensures Ok() && out == old(out) + Repeat(c, n)
    {
      var k := 0;
      while k < n
        invariant Ok() && 0 <= k && (k == 0 || k <= n) && out == old(out) + Repeat(c, k)
      {
        Put(c);
        k := k + 1;
        assert Repeat(c, k) == Repeat(c, k - 1) + [c];
      }
    }

    method PutAll(s: seq<char>)
      requires Ok()
      modifies this, buf
      ensures Ok() && out == old(out) + s
    {
      var k := 0;
      while k < |s|
        invariant Ok() && 0 <= k <= |s| && out == old(out) + s[..k]
      {
        Put(s[k]);
        k := k + 1;
        assert s[..k] == s[..k - 1] + [s[k - 1]];
      }
      assert s[..|s|] == s;
    }
  }

  /** n copies of c, none if n is not positive. */
  function Repeat(c: char, n: int): (r: seq<char>)
    ensures |r| == if n <= 0 then 0 else n
  {
    if n <= 0 then [] else seq(n, _ => c)
  }

  /** The integer types of a conversion. */
  datatype Kind = LongLong | ULong | Long | UByte | Byte | UShort | Short | UInt | Int | SizeT | PtrDiff

  /** enum format_type */
  datatype Type = None | Width | Precision | Char | Str | Pointer | Percent | Invalid | NrChars | Integer(kind: Kind)

  /** struct printf_spec, with its flag bits as fields. */
  datatype Spec = Spec(
    ty: Type, zeropad: bool, sign: bool, plus: bool, space: bool, left: bool, small: bool, special: bool,
    base: nat, width: int, precision: int)

  function Digit(d: nat, small: bool): char
    requires d < 16
  {
    if d < 10 then '0' + d as char else (if small then 'a' else 'A') + (d - 10) as char
  }

  /** The characters of a digit string. */
  function Text(ds: seq<nat>, small: bool): (r: seq<char>)
    requires forall i :: 0 <= i < |ds| ==> ds[i] < 16
    ensures |r| == |ds| && forall i :: 0 <= i < |ds| ==> r[i] == Digit(ds[i], small)
  {
    seq(|ds|, i requires 0 <= i < |ds| => Digit(ds[i], small))
  }

  // ----- What number() prints -----

  predicate Negative(num: nat, spec: Spec) { spec.sign && num >= U64 / 2 }

  function Magnitude(num: nat, spec: Spec): nat
    requires num < U64
  {
    if Negative(num, spec) then U64 - num else num
  }

  function SignText(num: nat, spec: Spec): seq<char> {
    if Negative(num, spec) then "-" else if spec.sign && spec.plus then "+" else if spec.sign && spec.space then " " else ""
  }

  function PrefixText(num: nat, spec: Spec): seq<char> {
    if !spec.special || spec.base == 10 then ""
    else if spec.base == 16 then ['0', if spec.small then 'x' else 'X']
    else if num != 0 then "0"
    else ""
  }

  function DigitText(num: nat, spec: Spec): seq<char>
    requires num < U64 && PrintBase(spec.base)
  {
    Text(Reverse(RevDigits(Magnitude(num, spec), spec.base)), spec.small)
  }

  function Max(a: int, b: int): int { if a < b then b else a }

  /** Blanks or zeros that bring the whole to the field width. */
  function Pad(num: nat, spec: Spec): int
    requires num < U64 && PrintBase(spec.base)
  {
    spec.width - |SignText(num, spec)| - |PrefixText(num, spec)| - Max(|DigitText(num, spec)|, spec.precision)
  }

  /** Everything before the digits: blanks on the left, sign, prefix, zeros up to the field width. */
  function HeadText(num: nat, spec: Spec): seq<char>
    requires num < U64 && PrintBase(spec.base)
  {
    (if spec.left || spec.zeropad then [] else Repeat(' ', Pad(num, spec)))
    + SignText(num, spec) + PrefixText(num, spec)
    + (if !spec.left && spec.zeropad then Repeat('0', Pad(num, spec)) else [])
  }

  function NumberText(num: nat, spec: Spec): seq<char>
    requires num < U64 && PrintBase(spec.base)
  {
    HeadText(num, spec) + Repeat('0', spec.precision - |DigitText(num, spec)|) + DigitText(num, spec)
    + (if spec.left then Repeat(' ', Pad(num, spec)) else [])
  }

  /** The digits of num in tmp[], in reverse order. */
  method ReverseDigits(num: nat, base: nat, small: bool) returns (tmp: seq<char>)
    requires num < U64 && PrintBase(base)
    ensures tmp == Text(RevDigits(num, base), small)
  {
    hide Text, RevDigits, Digit, Low, High;
    if num < base {
      tmp := [Digit(num, small)];
      OneDigit(num, base, small);
    } else if base != 10 {
      var n := num;
      tmp := [];
      while true
        invariant n > 0 && tmp + Text(RevDigits(n, base), small) == Text(RevDigits(num, base), small)
        decreases n
      {
        StepText(n, base, small);
        tmp := tmp + [Digit(Low(n % 256, base), small)];
        n := High(n, base);
        if n == 0 { break; }
      }
    } else {
      tmp := PutDec.PutDecGeneric([], num);
      DecimalText(num, small);
    }
  }

  lemma {:induction false} OneDigit(n: nat, base: nat, small: bool)
    requires PrintBase(base) && n < base
    ensures Text(RevDigits(n, base), small) == [Digit(n, small)]
  {
  }

  lemma {:induction false} StepText(n: nat, base: nat, small: bool)
    requires base == 8 || base == 16
    ensures Low(n % 256, base) == Low(n, base) < 16 && (n > 0 ==> High(n, base) < n)
    ensures Text(RevDigits(n, base), small)
         == [Digit(Low(n, base), small)] + if High(n, base) == 0 then [] else Text(RevDigits(High(n, base), base), small)
  {
    hide Digit;
    ByteLow(n, base);
    if n >= base {
      assert RevDigits(n, base) == [Low(n, base)] + RevDigits(High(n, base), base);
    }
  }

  lemma {:induction false} ByteLow(n: nat, base: nat)
    requires base == 8 || base == 16
    ensures Low(n % 256, base) == Low(n, base) < 16
  {
    var q, r := n / 256, n % 256;
    if base == 8 { Residue(32 * q, r, 8); } else { Residue(16 * q, r, 16); }
  }

  lemma {:induction false} Residue(q: nat, r: nat, b: nat)
    requires b == 8 || b == 16
    ensures b == 8 ==> (8 * q + r) % 8 == r % 8
    ensures b == 16 ==> (16 * q + r) % 16 == r % 16
  {
  }

  lemma {:induction false} DecimalText(n: nat, small: bool)
    ensures Text(RevDigits(n, 10), small) == PutDec.RevDecimal(n)
  {
  }

  /** The sign of num and the field width left after sign and prefix. */
  method SignAndWidth(num0: nat, spec: Spec) returns (num: nat, sign: seq<char>, width: int)
    requires num0 < U64
    ensures num == Magnitude(num0, spec) < U64 && sign == SignText(num0, spec)
    ensures width == spec.width - |SignText(num0, spec)| - |PrefixText(num0, spec)|
  {
    num, sign, width := num0, "", spec.width;
    if spec.sign {
      if num >= U64 / 2 {
        sign := "-";
        num := U64 - num;
        width := width - 1;
      } else if spec.plus {
        sign := "+";
        width := width - 1;
      } else if spec.space {
        sign := " ";
        width := width - 1;
      }
    }
    if spec.special && spec.base != 10 {
      if spec.base == 16 { width := width - 2; }
      else if num0 != 0 { width := width - 1; }
    }
  }

  method PutPrefix(w: Writer, num: nat, spec: Spec)
    requires w.Ok()
    modifies w, w.buf
    ensures w.Ok() && w.out == old(w.out) + PrefixText(num, spec)
  {
    if spec.special && spec.base != 10 {
      if spec.base == 16 || num != 0 { w.Put('0'); }
      if spec.base == 16 { w.Put(if spec.small then 'x' else 'X'); }
    }
  }

  /** The padding loops leave the width below zero, so at most one of them prints. */
  method PutHead(w: Writer, num: nat, spec: Spec, sign: seq<char>, width0: int) returns (width: int)
    requires w.Ok() && num < U64 && PrintBase(spec.base) && width0 == Pad(num, spec) && sign == SignText(num, spec)
    modifies w, w.buf
    ensures w.Ok() && w.out == old(w.out) + HeadText(num, spec)
    ensures if spec.left then width == width0 else width < 0
  {
    hide Repeat, SignText, PrefixText, Pad, Writer.Ok;
    NothingToPad(width0);
    ghost var o, t := w.out, [];
    width := width0;
    if !spec.zeropad && !spec.left {
      w.Fill(' ', width);
      t := Repeat(' ', width);
      if width >= 0 { width := -1; }
    }
    w.PutAll(sign);
    assert w.out == o + (t + sign);
    PutPrefix(w, num, spec);
    assert w.out == o + (t + sign + PrefixText(num, spec));
    if !spec.left {
      ghost var z := if spec.zeropad then Repeat('0', width) else [];
      w.Fill(if spec.zeropad then '0' else ' ', width);
      assert w.out == o + (t + sign + PrefixText(num, spec) + z);
      if width >= 0 { width := -1; }
    }
  }

  /** number() */
  method Number(w: Writer, num0: nat, spec: Spec)
    requires w.Ok() && num0 < U64 && PrintBase(spec.base)
    modifies w, w.buf
    ensures w.Ok() && w.out == old(w.out) + NumberText(num0, spec)
  {
    hide RevDigits, Text, Reverse, Repeat, SignText, PrefixText, DigitText, HeadText, Magnitude, Writer.Ok;
    var num, sign, width := SignAndWidth(num0, spec);
    var tmp := ReverseDigits(num, spec.base, spec.small);
    DigitTextIs(num0, spec);
    var precision := Max(|tmp|, spec.precision);
    width := PutHead(w, num0, spec, sign, width - precision);
    NoZeros(spec.precision, |tmp|);
    NothingToPad(width);
    w.Fill('0', precision - |tmp|);
    w.PutAll(Reverse(tmp));
    w.Fill(' ', width);
    Join4(old(w.out), HeadText(num0, spec), Repeat('0', precision - |tmp|), DigitText(num0, spec), Repeat(' ', width));
  }

  lemma Join4(o: seq<char>, a: seq<char>, b: seq<char>, c: seq<char>, d: seq<char>)
    ensures o + a + b + c + d == o + (a + b + c + d)
  {
  }

  lemma {:induction false} NoZeros(precision: int, k: int)
    ensures Repeat('0', Max(k, precision) - k) == Repeat('0', precision - k)
  {
  }

  lemma {:induction false} NothingToPad(n: int)
    ensures n < 0 ==> Repeat(' ', n) == [] == Repeat('0', n)
    ensures Repeat(' ', -1) == [] == Repeat('0', -1) == Repeat('0', 0)
  {
  }

  lemma {:induction false} DigitTextIs(num: nat, spec: Spec)
    requires num < U64 && PrintBase(spec.base)
    ensures DigitText(num, spec) == Reverse(Text(RevDigits(Magnitude(num, spec), spec.base), spec.small))
  {
    TextReverse(RevDigits(Magnitude(num, spec), spec.base), spec.small);
  }

  lemma {:induction false} TextReverse(ds: seq<nat>, small: bool)
    requires forall i :: 0 <= i < |ds| ==> ds[i] < 16
    ensures Text(Reverse(ds), small) == Reverse(Text(ds, small))
  {
  }
}
