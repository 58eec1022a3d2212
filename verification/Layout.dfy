/** Where number() puts the parts of a conversion in its field, for every width and precision. */
module Layout {
  import opened Digits
  import opened ParseInteger
  import opened FormatNumber
  import opened RoundTrip

  /** The number that a 64-bit word is printed as. */
  function Printed(n: nat, spec: Spec): int
    requires n < U64
  {
    if spec.sign && n >= 9223372036854775808 then n - 18446744073709551616 else n
  }

  function Abs(x: int): nat { if x < 0 then -x else x }

  /** What stands in front of the digits: a sign for signed conversions, "0x", "0X" or "0" with '#'. */
  function Front(x: int, spec: Spec): seq<char> {
    (if !spec.sign then "" else if x < 0 then "-" else if spec.plus then "+" else if spec.space then " " else "")
    + (if !spec.special then ""
       else if spec.base == 16 then (if spec.small then "0x" else "0X")
       else if spec.base == 8 && x != 0 then "0"
       else "")
  }

  /**
   A field from left to right: blanks, the front, zeros, the digits of the number, blanks.  It is as wide as asked for,
   or as its contents with at least `precision` digits.
   */
  ghost predicate Laid(text: seq<char>, x: int, spec: Spec, before: nat, zeros: nat, after: nat)
    requires PrintBase(spec.base)
  {
    var front, digits := Front(x, spec), Numerals(Abs(x), spec.base, spec.small);
    var a := before + |front|;
    && |text| == a + zeros + |digits| + after == Max(spec.width, |front| + Max(|digits|, spec.precision))
    && (forall i :: 0 <= i < before ==> text[i] == ' ')
    && text[before..a] == front
    && (forall i :: a <= i < a + zeros ==> text[i] == '0')
    && text[a + zeros..a + zeros + |digits|] == digits
    && (forall i :: a + zeros + |digits| <= i < |text| ==> text[i] == ' ')
  }

  /** Blanks only on one side: behind with LEFT, none with ZEROPAD, in front otherwise. */
  predicate Sides(x: int, spec: Spec, before: nat, zeros: nat, after: nat)
    requires PrintBase(spec.base)
  {
    && (spec.left ==> before == 0)
    && (!spec.left ==> after == 0)
    && (spec.zeropad && !spec.left ==> before == 0)
    && (!spec.zeropad || spec.left ==> zeros == Max(0, spec.precision - |Numerals(Abs(x), spec.base, spec.small)|))
  }

  lemma {:induction false} NumberIsLaid(n: nat, spec: Spec) returns (before: nat, zeros: nat, after: nat)
    requires n < U64 && PrintBase(spec.base)
    ensures Laid(NumberText(n, spec), Printed(n, spec), spec, before, zeros, after)
    ensures Sides(Printed(n, spec), spec, before, zeros, after)
  {
    hide Numerals, DigitText, SignText, PrefixText, Front, Printed, Abs, Repeat, Laid;
    var x, text := Printed(n, spec), NumberText(n, spec);
    FrontIs(n, spec);
    DigitsAre(n, spec);
    var front, digits := Front(x, spec), DigitText(n, spec);
    var pad, more := Max(0, Pad(n, spec)), Max(0, spec.precision - |digits|);
    RepeatIs(' ', Pad(n, spec), pad);
    RepeatIs('0', Pad(n, spec), pad);
    RepeatIs('0', spec.precision - |digits|, more);
    var blanks, fill, least := Repeat(' ', Pad(n, spec)), Repeat('0', Pad(n, spec)), Repeat('0', spec.precision - |digits|);
    if spec.left {
      before, zeros, after := 0, more, pad;
      assert text == [] + front + least + digits + blanks;
      LaidOut(text, x, spec, [], least, blanks);
    } else if spec.zeropad {
      before, zeros, after := 0, pad + more, 0;
      assert text == [] + front + (fill + least) + digits + [];
      LaidOut(text, x, spec, [], fill + least, []);
    } else {
      before, zeros, after := pad, more, 0;
      assert text == blanks + front + least + digits + [];
      LaidOut(text, x, spec, blanks, least, []);
    }
  }

  lemma FrontIs(n: nat, spec: Spec)
    requires n < U64 && PrintBase(spec.base)
    ensures SignText(n, spec) + PrefixText(n, spec) == Front(Printed(n, spec), spec)
  {
  }

  lemma DigitsAre(n: nat, spec: Spec)
    requires n < U64 && PrintBase(spec.base)
    ensures DigitText(n, spec) == Numerals(Abs(Printed(n, spec)), spec.base, spec.small)
  {
    hide Reverse, RevDigits, Text;
  }

  lemma RepeatIs(c: char, n: int, k: nat)
    requires k == Max(0, n)
    ensures |Repeat(c, n)| == k && forall i :: 0 <= i < k ==> Repeat(c, n)[i] == c
  {
  }

  lemma LaidOut(text: seq<char>, x: int, spec: Spec, b: seq<char>, z: seq<char>, e: seq<char>)
    requires PrintBase(spec.base)
    requires text == b + Front(x, spec) + z + Numerals(Abs(x), spec.base, spec.small) + e
    requires |text| == Max(spec.width, |Front(x, spec)| + Max(|Numerals(Abs(x), spec.base, spec.small)|, spec.precision))
    requires (forall i :: 0 <= i < |b| ==> b[i] == ' ') && (forall i :: 0 <= i < |e| ==> e[i] == ' ')
    requires forall i :: 0 <= i < |z| ==> z[i] == '0'
    ensures Laid(text, x, spec, |b|, |z|, |e|)
  {
    hide Front, Numerals, Abs;
  }

  /** A field without blanks: its contents fill it, or zeros do. */
  predicate Full(x: int, spec: Spec)
    requires PrintBase(spec.base)
  {
    || (spec.zeropad && !spec.left)
    || spec.width <= |Front(x, spec)| + Max(|Numerals(Abs(x), spec.base, spec.small)|, spec.precision)
  }

  /** Zeros in front do not change the value. */
  lemma {:induction false} ZeroFill(zs: seq<char>, t: seq<char>, base: nat)
    requires forall i :: 0 <= i < |zs| ==> zs[i] == '0'
    ensures Value(DigitsOf(zs + t), base) == Value(DigitsOf(t), base)
  {
    hide Value;
    if zs == [] {
      assert zs + t == t;
    } else {
      ZeroFill(zs[1..], t, base);
      assert zs + t == "0" + (zs[1..] + t);
      assert DigitsOf(zs + t) == [0] + DigitsOf(zs[1..] + t);
      ZeroFirst(DigitsOf(zs[1..] + t), base);
    }
  }

  /** Zeros and the digits of n, with something behind them that is no digit: only if that is nothing are they a number. */
  lemma {:induction false} FilledReadsBack(zs: seq<char>, n: nat, base: nat, small: bool, rest: seq<char>)
    requires n < U64 && PrintBase(base) && (forall i :: 0 <= i < |zs| ==> zs[i] == '0')
    requires forall i :: 0 <= i < |rest| ==> rest[i] == ' '
    ensures Parse(zs + Numerals(n, base, small) + rest, base) == if rest == [] then Number(n) else Error(-22)
  {
    hide Numerals, Parse;
    NumeralsAre(n, base, small);
    var t := zs + Numerals(n, base, small);
    ZeroFill(zs, Numerals(n, base, small), base);
    assert DigitOf('0') == 0 && DigitOf(' ') == 16;
    ParseOutcome(t, rest, base);
  }

  /** The parts of a field that starts without a blank. */
  lemma FieldParts(text: seq<char>, x: int, spec: Spec, zeros: nat, after: nat) returns (zs: seq<char>, rest: seq<char>)
    requires PrintBase(spec.base) && Laid(text, x, spec, 0, zeros, after)
    ensures text == Front(x, spec) + (zs + Numerals(Abs(x), spec.base, spec.small) + rest)
    ensures (forall i :: 0 <= i < |zs| ==> zs[i] == '0') && (forall i :: 0 <= i < |rest| ==> rest[i] == ' ') && |rest| == after
  {
    hide Numerals, Front;
    var a, d := |Front(x, spec)|, |Numerals(Abs(x), spec.base, spec.small)|;
    zs, rest := text[a..a + zeros], text[a + zeros + d..];
    Quarters(text, a, a + zeros, a + zeros + d);
    assert text[0..a] == text[..a];
    forall i | 0 <= i < |zs| ensures zs[i] == '0' { assert zs[i] == text[a + i]; }
    forall i | 0 <= i < |rest| ensures rest[i] == ' ' { assert rest[i] == text[a + zeros + d + i]; }
  }

  lemma Quarters(text: seq<char>, a: nat, b: nat, c: nat)
    requires a <= b <= c <= |text|
    ensures text == text[..a] + (text[a..b] + text[b..c] + text[c..])
  {
  }

  lemma FullIff(text: seq<char>, x: int, spec: Spec, before: nat, zeros: nat, after: nat)
    requires PrintBase(spec.base) && Laid(text, x, spec, before, zeros, after) && Sides(x, spec, before, zeros, after)
    ensures Full(x, spec) <==> before == 0 && after == 0
  {
    hide Numerals, Front;
  }

  /** A field that starts with a blank is no number. */
  lemma BlankFirst(text: seq<char>, x: int, spec: Spec, before: nat, zeros: nat, after: nat, base: nat)
    requires PrintBase(spec.base) && Laid(text, x, spec, before, zeros, after) && (base == 0 || 2 <= base <= 16)
    requires before > 0 || (spec.sign && x >= 0 && !spec.plus && spec.space)
    ensures text != [] && text[0] == ' ' && ParseUnsigned(Unplus(text), base) == Error(-22) && SignedValue(text, base) == (false, -22)
  {
    hide Numerals, ParseUnsigned;
    if before > 0 {
      assert text[0] == ' ';
    } else {
      assert text[..|Front(x, spec)|] == Front(x, spec);
    }
    BlankIsNoNumber(text, base);
  }

  /**
   A signed decimal conversion of any width and precision is read back by kstrtoll if and only if no blank is in its
   field: neither padding nor in place of a plus sign.
   */
  lemma {:induction false} SignedFieldReadsBack(n: nat, spec: Spec)
    requires n < U64 && spec.sign && spec.base == 10
    ensures var x := Printed(n, spec);
            SignedValue(NumberText(n, spec), 10) == (true, x) <==> Full(x, spec) && !(spec.space && !spec.plus && x >= 0)
  {
    hide Numerals, ParseUnsigned, NumberText, Laid, Sides, Full;
    var x, text := Printed(n, spec), NumberText(n, spec);
    var before, zeros, after := NumberIsLaid(n, spec);
    FullIff(text, x, spec, before, zeros, after);
    if before > 0 || (x >= 0 && !spec.plus && spec.space) {
      BlankFirst(text, x, spec, before, zeros, after, 10);
    } else {
      var zs, rest := FieldParts(text, x, spec, zeros, after);
      SignedPartsReadBack(text, x, spec, zs, rest);
    }
  }

  lemma {:induction false} SignedPartsReadBack(text: seq<char>, x: int, spec: Spec, zs: seq<char>, rest: seq<char>)
    requires -(U64 / 2) <= x < U64 / 2 && spec.sign && spec.base == 10 && !(x >= 0 && !spec.plus && spec.space)
    requires text == Front(x, spec) + (zs + Numerals(Abs(x), 10, spec.small) + rest)
    requires (forall i :: 0 <= i < |zs| ==> zs[i] == '0') && (forall i :: 0 <= i < |rest| ==> rest[i] == ' ')
    ensures SignedValue(text, 10) == if rest == [] then (true, x) else (false, -22)
  {
    hide Numerals, Parse;
    var t := zs + Numerals(Abs(x), 10, spec.small) + rest;
    FilledReadsBack(zs, Abs(x), 10, spec.small, rest);
    FirstIsDigit(zs, Abs(x), 10, spec.small, rest);
    if x < 0 {
      assert text == "-" + t && text[1..] == t;
    } else if spec.plus {
      assert text == "+" + t && text[1..] == t;
    } else {
      assert text == t;
    }
  }

  /** The digits of a field start with a digit, and "0x" is never at their start. */
  lemma FirstIsDigit(zs: seq<char>, n: nat, base: nat, small: bool, rest: seq<char>)
    requires PrintBase(base) && (forall i :: 0 <= i < |zs| ==> zs[i] == '0') && (forall i :: 0 <= i < |rest| ==> rest[i] == ' ')
    ensures var t := zs + Numerals(n, base, small) + rest; t != [] && DigitOf(t[0]) < 16 && Lower(At(t, 1)) != 'x' as nat
  {
    hide Numerals;
    NumeralsAre(n, base, small);
    var d := Numerals(n, base, small);
    var t := zs + d + rest;
    assert |zs| == 0 ==> t[0] == d[0];
    assert |zs| > 0 ==> t[0] == '0';
    assert |t| > 1 ==> t[1] == ' ' || t[1] == '0' || DigitOf(t[1]) < 16 by {
      assert |t| > 1 ==> t[1] == if 1 < |zs| then zs[1] else if 1 - |zs| < |d| then d[1 - |zs|] else rest[1 - |zs| - |d|];
    }
  }

  /** An unsigned one is read back in its own base if and only if it has no blanks. */
  lemma {:induction false} UnsignedFieldReadsBack(n: nat, spec: Spec)
    requires n < U64 && !spec.sign && PrintBase(spec.base)
    ensures ParseUnsigned(Unplus(NumberText(n, spec)), spec.base) == Number(n) <==> Full(n, spec)
  {
    hide Numerals, ParseUnsigned, NumberText, Laid, Sides, Full;
    var text := NumberText(n, spec);
    assert Printed(n, spec) == n;
    var before, zeros, after := NumberIsLaid(n, spec);
    FullIff(text, n, spec, before, zeros, after);
    if before > 0 {
      BlankFirst(text, n, spec, before, zeros, after, spec.base);
    } else {
      var zs, rest := FieldParts(text, n, spec, zeros, after);
      UnsignedPartsReadBack(text, n, spec, zs, rest);
    }
  }

  lemma {:induction false} UnsignedPartsReadBack(text: seq<char>, n: nat, spec: Spec, zs: seq<char>, rest: seq<char>)
    requires n < U64 && !spec.sign && PrintBase(spec.base)
    requires text == Front(n, spec) + (zs + Numerals(n, spec.base, spec.small) + rest)
    requires (forall i :: 0 <= i < |zs| ==> zs[i] == '0') && (forall i :: 0 <= i < |rest| ==> rest[i] == ' ')
    ensures ParseUnsigned(Unplus(text), spec.base) == if rest == [] then Number(n) else Error(-22)
  {
    hide Numerals, Parse;
    var digits := Numerals(n, spec.base, spec.small);
    var t := zs + digits + rest;
    FilledReadsBack(zs, n, spec.base, spec.small, rest);
    FirstIsDigit(zs, n, spec.base, spec.small, rest);
    if spec.special && spec.base == 16 {
      assert text[2..] == t;
    } else if spec.special && spec.base == 8 && n != 0 {
      assert text == ("0" + zs) + digits + rest;
      FilledReadsBack("0" + zs, n, spec.base, spec.small, rest);
      FirstIsDigit("0" + zs, n, spec.base, spec.small, rest);
    } else {
      assert text == t;
    }
  }

  /** Without zero fill a field is the text that needs no padding, with blanks in front of it, or behind it with LEFT. */
  lemma {:induction false} PaddedText(n: nat, spec: Spec) returns (before: nat, after: nat)
    requires n < U64 && PrintBase(spec.base) && (spec.left || !spec.zeropad)
    ensures var text, bare := NumberText(n, spec), NumberText(n, spec.(width := 0));
            && |text| == before + |bare| + after == Max(spec.width, |bare|) && text[before..before + |bare|] == bare
            && (if spec.left then before == 0 else after == 0)
            && (forall i :: 0 <= i < |text| && !(before <= i < before + |bare|) ==> text[i] == ' ')
  {
    hide Numerals, NumberText, Front;
    var x, none := Printed(n, spec), spec.(width := 0);
    var text, bare := NumberText(n, spec), NumberText(n, none);
    var zeros;
    before, zeros, after := NumberIsLaid(n, spec);
    var before0, zeros0, after0 := NumberIsLaid(n, none);
    assert Front(x, none) == Front(x, spec) by { FrontIs(n, spec); FrontIs(n, none); }
    SameParts(text, bare, x, spec, before, zeros, after);
  }

  lemma SameParts(text: seq<char>, bare: seq<char>, x: int, spec: Spec, before: nat, zeros: nat, after: nat)
    requires PrintBase(spec.base) && Laid(text, x, spec, before, zeros, after)
    requires Laid(bare, x, spec.(width := 0), 0, zeros, 0) && Front(x, spec.(width := 0)) == Front(x, spec)
    ensures text[before..before + |bare|] == bare
  {
    hide Numerals, Front;
    var f, d := Front(x, spec), Numerals(Abs(x), spec.base, spec.small);
    var a := before + |f|;
    forall i | 0 <= i < |bare| ensures text[before + i] == bare[i] {
      if i < |f| {
        assert text[before..a][i] == text[before + i] && bare[0..|f|][i] == bare[i];
      } else if i >= |f| + zeros {
        var j := i - |f| - zeros;
        assert text[a + zeros..a + zeros + |d|][j] == text[before + i];
        assert bare[|f| + zeros..|f| + zeros + |d|][j] == bare[i];
      }
    }
  }
}
