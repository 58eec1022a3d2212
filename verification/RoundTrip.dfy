/** Numbers printed by number() and num_to_str() are read back unchanged by the kstrto* parsers. */
module RoundTrip {
  import opened Digits
  import opened ParseInteger
  import opened FormatNumber
  import PutDec

  lemma {:induction false} DigitReadsBack(d: nat, small: bool)
    requires d < 16
    ensures DigitOf(Digit(d, small)) == d
  {
  }

  lemma {:induction false} TextReadsBack(ds: seq<nat>, small: bool)
    requires forall i :: 0 <= i < |ds| ==> ds[i] < 16
    ensures DigitsOf(Text(ds, small)) == ds
  {
    hide Digit, DigitOf;
    var t := Text(ds, small);
    forall i | 0 <= i < |ds| ensures DigitOf(t[i]) == ds[i] { DigitReadsBack(ds[i], small); }
  }

  /** The digits of n in a base, most significant first, as text. */
  function Numerals(n: nat, base: nat, small: bool): seq<char>
    requires PrintBase(base)
  {
    Text(Reverse(RevDigits(n, base)), small)
  }

  lemma {:induction false} NumeralsReadBack(n: nat, base: nat, small: bool)
    requires n < U64 && PrintBase(base)
    ensures Parse(Numerals(n, base, small), base) == Number(n) && Numerals(n, base, small) != []
    ensures DigitOf(Numerals(n, base, small)[0]) < base
  {
    hide Digit, DigitOf, RevDigits, Reverse, Parse;
    var ds := Reverse(RevDigits(n, base));
    var t := Numerals(n, base, small);
    TextReadsBack(ds, small);
    ValueOfRevDigits(n, base);
    assert forall i :: 0 <= i < |t| ==> DigitOf(t[i]) == DigitsOf(t)[i] == ds[i];
    NumeralsParse(t, base, false);
  }

  /** Decimal text starts with '0' only for 0, and is then one character. */
  lemma {:induction false} FirstDigit(n: nat, base: nat)
    requires PrintBase(base)
    ensures var r := RevDigits(n, base); (r[|r| - 1] == 0 ==> n == 0) && (n == 0 ==> r == [0])
  {
    if n < base {
    } else {
      FirstDigit(High(n, base), base);
    }
  }

  lemma {:induction false} DecimalFirst(n: nat, small: bool)
    ensures var t := Numerals(n, 10, small);
            t != [] && '0' <= t[0] <= '9' && (t[0] == '0' ==> t == "0" && n == 0)
  {
    FirstDigit(n, 10);
  }

  /** Autodetection leaves decimal text alone: "0" is read as octal, to the same value. */
  lemma {:induction false} DecimalAutodetected(n: nat, small: bool, base: nat)
    requires n < U64 && (base == 0 || base == 10)
    ensures ParseUnsigned(Numerals(n, 10, small), base) == Number(n)
  {
    var t := Numerals(n, 10, small);
    DecimalFirst(n, small);
    NumeralsReadBack(n, 10, small);
    if t[0] == '0' && base == 0 {
      assert Numerals(0, 8, small) == "0" by { FirstDigit(0, 8); }
      NumeralsReadBack(0, 8, small);
    }
  }

  /** The digit characters are the usual ones, without a zero in front of any number but 0. */
  lemma {:induction false} NumeralsAre(n: nat, base: nat, small: bool)
    requires PrintBase(base)
    ensures var t := Numerals(n, base, small);
            && t != [] && Value(DigitsOf(t), base) == n && (t[0] == '0' ==> n == 0) && (n == 0 ==> t == "0")
            && (forall i :: 0 <= i < |t| ==>
                  DigitOf(t[i]) < base && t[i] == (if small then "0123456789abcdef" else "0123456789ABCDEF")[DigitOf(t[i])])
  {
    hide DigitOf, Value;
    var ds := Reverse(RevDigits(n, base));
    TextReadsBack(ds, small);
    ValueOfRevDigits(n, base);
    FirstDigit(n, base);
    forall i | 0 <= i < |ds|
      ensures Digit(ds[i], small) == (if small then "0123456789abcdef" else "0123456789ABCDEF")[ds[i]]
    {
      DigitChar(ds[i], small);
    }
  }

  lemma DigitChar(d: nat, small: bool)
    requires d < 16
    ensures Digit(d, small) == (if small then "0123456789abcdef" else "0123456789ABCDEF")[d]
    ensures Digit(d, small) == '0' <==> d == 0
  {
  }

  /** A number of 2^64 or more is out of range in every base. */
  lemma {:induction false} TooLargeIsOutOfRange(n: nat, base: nat, small: bool, rest: seq<char>)
    requires PrintBase(base) && n >= 0x1_0000_0000_0000_0000 && (rest != [] ==> DigitOf(rest[0]) >= base)
    ensures Parse(Numerals(n, base, small) + rest, base) == Error(-34)
  {
    hide Numerals, Parse;
    NumeralsAre(n, base, small);
    ParseOutcome(Numerals(n, base, small), rest, base);
  }

  /** Decimal text of any number with radix 10 or 0: its value, or out of range. */
  lemma {:induction false} DecimalOutcome(v: nat, base: nat)
    requires base == 0 || base == 10
    ensures var t := Numerals(v, 10, false);
            && t != [] && '0' <= t[0] <= '9' && Unplus(t) == t
            && ParseUnsigned(t, base) == if v < 0x1_0000_0000_0000_0000 then Number(v) else Error(-34)
  {
    hide Numerals, Parse;
    DecimalFirst(v, false);
    var t := Numerals(v, 10, false);
    if v < U64 {
      DecimalAutodetected(v, false, base);
    } else {
      TooLargeIsOutOfRange(v, 10, false, []);
      assert t + [] == t;
    }
  }

  /** kstrtou8, kstrtou16 and kstrtouint on the decimal text of any number. */
  lemma {:induction false} NarrowUnsignedBounds(v: nat, base: nat)
    requires base == 0 || base == 10
    ensures var t := Numerals(v, 10, false);
            && NarrowUnsigned(t, base, 8) == (if v <= 255 then Number(v) else Error(-34))
            && NarrowUnsigned(t, base, 16) == (if v <= 65535 then Number(v) else Error(-34))
            && NarrowUnsigned(t, base, 32) == (if v <= 4294967295 then Number(v) else Error(-34))
  {
    hide Numerals, ParseUnsigned;
    DecimalOutcome(v, base);
  }

  /** The decimal text of an integer. */
  function Decimal(x: int): seq<char> { if x < 0 then "-" + Numerals(-x, 10, false) else Numerals(x, 10, false) }

  /** kstrtoll, kstrtos8, kstrtos16 and kstrtoint on the decimal text of any integer. */
  lemma {:induction false} NarrowSignedBounds(x: int, base: nat)
    requires base == 0 || base == 10
    ensures SignedValue(Decimal(x), base)
         == if -9223372036854775808 <= x <= 9223372036854775807 then (true, x) else (false, -34)
    ensures NarrowSigned(Decimal(x), base, 8) == if -128 <= x <= 127 then (true, x) else (false, -34)
    ensures NarrowSigned(Decimal(x), base, 16) == if -32768 <= x <= 32767 then (true, x) else (false, -34)
    ensures NarrowSigned(Decimal(x), base, 32) == if -2147483648 <= x <= 2147483647 then (true, x) else (false, -34)
  {
    hide Numerals, ParseUnsigned;
    if x < 0 {
      DecimalOutcome(-x, base);
      assert Decimal(x)[1..] == Numerals(-x, 10, false);
    } else {
      DecimalOutcome(x, base);
    }
  }

  /** With radix 16 the prefix may be there or not, with radix 0 it must be. */
  lemma {:induction false} HexPrefix(n: nat, small: bool, x: char)
    requires n < U64 && (x == 'x' || x == 'X')
    ensures var t := Numerals(n, 16, small);
            && ParseUnsigned(['0', x] + t, 16) == Number(n) && ParseUnsigned(['0', x] + t, 0) == Number(n)
            && ParseUnsigned(t, 16) == Number(n)
  {
    hide Numerals, Parse, Lower, DigitOf, FixupSkip, FixupBase;
    var t := Numerals(n, 16, small);
    NumeralsReadBack(n, 16, small);
    NumeralsAre(n, 16, small);
    HexSkipped(t, x);
    assert (['0', x] + t)[2..] == t;
    HexKept(t);
    assert t[0..] == t;
  }

  lemma HexSkipped(t: seq<char>, x: char)
    requires (x == 'x' || x == 'X') && t != [] && DigitOf(t[0]) < 16
    ensures var s := ['0', x] + t; FixupSkip(s, 16) == FixupSkip(s, 0) == 2 && FixupBase(s, 16) == FixupBase(s, 0) == 16
  {
    var s := ['0', x] + t;
    assert At(s, 0) == '0' && At(s, 1) == x && At(s, 2) == t[0];
  }

  lemma HexKept(t: seq<char>)
    requires forall i :: 0 <= i < |t| ==> DigitOf(t[i]) < 16
    ensures FixupSkip(t, 16) == 0 && FixupBase(t, 16) == 16
  {
    if |t| > 1 { assert DigitOf(t[1]) < 16; }
  }

  /** An unpadded conversion: no field width and no precision. */
  predicate Unpadded(spec: Spec) { spec.width <= 0 && spec.precision <= 0 && PrintBase(spec.base) }

  lemma {:induction false} UnpaddedText(n: nat, spec: Spec)
    requires n < U64 && Unpadded(spec)
    ensures NumberText(n, spec) == SignText(n, spec) + PrefixText(n, spec) + Numerals(Magnitude(n, spec), spec.base, spec.small)
  {
    hide RevDigits, Reverse, SignText, PrefixText, Text;
  }

  /** Every u64 printed in base 10, or in base 8 or 16 with its prefix, is recovered with radix 0. */
  lemma {:induction false} PrintedUnsignedReadsBack(n: nat, spec: Spec)
    requires n < U64 && Unpadded(spec) && !spec.sign && (spec.base == 10 || spec.special)
    ensures ParseUnsigned(Unplus(NumberText(n, spec)), 0) == Number(n)
  {
    hide RevDigits, Reverse, Text, Parse, NumberText, Numerals;
    UnpaddedText(n, spec);
    var digits, text := Numerals(n, spec.base, spec.small), NumberText(n, spec);
    NumeralsReadBack(n, spec.base, spec.small);
    if spec.base == 10 {
      assert text == digits;
      DecimalFirst(n, spec.small);
      DecimalAutodetected(n, spec.small, 0);
    } else if spec.base == 16 {
      HexReadsBack(n, text, digits, spec.small);
    } else {
      OctalReadsBack(n, text, digits, spec.small);
    }
  }

  lemma {:induction false} HexReadsBack(n: nat, text: seq<char>, digits: seq<char>, small: bool)
    requires n < U64 && digits == Numerals(n, 16, small) && text == ['0', if small then 'x' else 'X'] + digits
    ensures ParseUnsigned(Unplus(text), 0) == Number(n)
  {
    hide RevDigits, Reverse, Text, Parse, Numerals;
    NumeralsReadBack(n, 16, small);
    assert text[2..] == digits;
  }

  /** The extra leading zero of octal output does not change the value. */
  lemma {:induction false} OctalReadsBack(n: nat, text: seq<char>, digits: seq<char>, small: bool)
    requires n < U64 && digits == Numerals(n, 8, small) && text == (if n != 0 then "0" + digits else digits)
    ensures ParseUnsigned(Unplus(text), 0) == Number(n)
  {
    NumeralsReadBack(n, 8, small);
    assert DigitOf(text[0]) == 0 && At(text, 0) == '0' by { OctalStartsWithZero(n, text, digits, small); }
    NotHex(text, digits, small, n);
    if n != 0 {
      LeadingZero(digits, 8);
    }
  }

  lemma {:induction false} OctalStartsWithZero(n: nat, text: seq<char>, digits: seq<char>, small: bool)
    requires digits == Numerals(n, 8, small) && text == (if n != 0 then "0" + digits else digits)
    ensures text != [] && text[0] == '0'
  {
    FirstDigit(n, 8);
  }

  lemma {:induction false} NotHex(text: seq<char>, digits: seq<char>, small: bool, n: nat)
    requires digits == Numerals(n, 8, small) && text == (if n != 0 then "0" + digits else digits)
    ensures Lower(At(text, 1)) != 'x' as nat
  {
    FirstDigit(n, 8);
    if n != 0 { assert text[1] == digits[0] && '0' <= digits[0] <= '7'; }
  }

  lemma {:induction false} LeadingZero(t: seq<char>, base: nat)
    requires Parse(t, base).Number? && 2 <= base <= 16
    ensures Parse("0" + t, base) == Parse(t, base)
  {
    hide Value;
    var s, k := "0" + t, Lead(t, base);
    assert s[1..] == t;
    LeadIs(s, base, k + 1);
    assert s[..k + 1] == "0" + t[..k];
    ZeroFirst(DigitsOf(t[..k]), base);
    assert DigitsOf("0" + t[..k]) == [0] + DigitsOf(t[..k]);
    assert s[k + 1..] == t[k..];
  }

  lemma {:induction false} ZeroFirst(ds: seq<nat>, base: nat)
    ensures Value([0] + ds, base) == Value(ds, base)
  {
    if ds == [] {
      assert [0][..0] == [];
    } else {
      assert ([0] + ds)[..|ds|] == [0] + ds[..|ds| - 1];
      ZeroFirst(ds[..|ds| - 1], base);
    }
  }

  /**
   Every s64 printed signed in base 10 is recovered by kstrtoll, with radix 10 or 0, unless
   the conversion puts a blank in place of the plus sign.
   */
  lemma {:induction false} PrintedSignedReadsBack(x: int, spec: Spec, base: nat)
    requires -(U64 / 2) <= x < U64 / 2 && Unpadded(spec) && spec.base == 10 && spec.sign && (base == 0 || base == 10)
    ensures SignedValue(NumberText(if x < 0 then U64 + x else x, spec), base) == (true, x)
       <==> !(spec.space && !spec.plus && x >= 0)
  {
    hide RevDigits, Reverse, Text, Parse, NumberText, Numerals, ParseUnsigned;
    var w := if x < 0 then U64 + x else x;
    var m := Magnitude(w, spec);
    UnpaddedText(w, spec);
    DecimalFirst(m, spec.small);
    DecimalAutodetected(m, spec.small, base);
    var text, digits := NumberText(w, spec), Numerals(m, 10, spec.small);
    if x < 0 { assert text == "-" + digits && text[1..] == digits; }
    else if spec.plus { assert text == "+" + digits && text[1..] == digits; }
    else if spec.space { BlankIsNoNumber(text, base); }
    else { assert text == digits; }
  }

  /** Nothing but a digit may come first, so a sign is taken once and no blank is skipped. */
  lemma {:induction false} NoDigitIsNoNumber(t: seq<char>, base: nat)
    requires (t != [] ==> DigitOf(t[0]) >= 16) && (base == 0 || 2 <= base <= 16)
    ensures ParseUnsigned(t, base) == Error(-22) && SignedValue("-" + t, base) == SignedValue("+" + t, base) == (false, -22)
  {
    hide Parse;
    NotZero(t);
    var r := FixupBase(t, base);
    ParseOutcome([], t, r);
    assert [] + t == t && DigitsOf([]) == [];
    assert ("-" + t)[1..] == t && ("+" + t)[1..] == t;
  }

  lemma NotZero(t: seq<char>)
    requires t != [] ==> DigitOf(t[0]) >= 16
    ensures At(t, 0) != '0'
  {
  }

  lemma {:induction false} BlankIsNoNumber(t: seq<char>, base: nat)
    requires t != [] && t[0] == ' ' && (base == 0 || 2 <= base <= 16)
    ensures ParseUnsigned(t, base) == Error(-EINVAL)
  {
    hide ParseUnsigned, SignedValue;
    NoDigitIsNoNumber(t, base);
  }

  /** num_to_str followed by kstrtoull is the identity. */
  lemma {:induction false} NumToStrReadsBack(n: nat, base: nat)
    requires n < U64 && (base == 0 || base == 10)
    ensures ParseUnsigned(Unplus(PutDec.Decimal(n)), base) == Number(n)
  {
    hide ParseUnsigned;
    DecimalText(n, false);
    TextReverse(RevDigits(n, 10), false);
    assert PutDec.Decimal(n) == Numerals(n, 10, false);
    DecimalFirst(n, false);
    DecimalAutodetected(n, false, base);
  }

  /** A conversion fills its field: it is as long as the wider of the field and its contents. */
  lemma {:induction false} NumberFillsField(n: nat, spec: Spec)
    requires n < U64 && PrintBase(spec.base)
    ensures |NumberText(n, spec)|
         == Max(spec.width, |SignText(n, spec)| + |PrefixText(n, spec)| + Max(|DigitText(n, spec)|, spec.precision))
  {
    hide DigitText, SignText, PrefixText;
  }

  /** Printed with a blank for its sign, 5 is no number to kstrtoll. */
  lemma BlankFiveIsNoNumber()
    ensures var spec := Spec(Integer(Long), false, true, false, true, false, false, false, 10, -1, -1);
            NumberText(5, spec) == " 5" && SignedValue(NumberText(5, spec), 10) == (false, -EINVAL)
  {
    var spec := Spec(Integer(Long), false, true, false, true, false, false, false, 10, -1, -1);
    hide ParseUnsigned, NumberText;
    UnpaddedText(5, spec);
    FiveText();
    assert NumberText(5, spec) == " 5";
    BlankIsNoNumber(" 5", 10);
  }

  /** kstrtoll refuses a negative zero. */
  lemma NegativeZeroIsRefused()
    ensures SignedValue("-0", 10) == (false, -ERANGE)
  {
    hide ParseUnsigned, Numerals;
    assert "-0"[1..] == "0";
    DecimalAutodetected(0, false, 10);
    ZeroText();
  }

  lemma FiveText()
    ensures Numerals(5, 10, false) == "5"
  {
  }

  lemma ZeroText()
    ensures Numerals(0, 10, false) == "0"
  {
  }
}
