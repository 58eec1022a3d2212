/**
 What printf prints for a format given as its items, text and conversions that hold their own arguments, and that the
 kstrto functions read the numbers back.
 */
module FormatTrip {
  import opened Arith
  import opened Digits
  import opened FormatNumber
  import opened ParseInteger
  import opened RoundTrip
  import opened Layout
  import opened Printf

  /** A field width or precision: none, decimal digits in the format, or '*' and an argument. */
  datatype Size = Unset | Written(n: nat) | Taken(v: int)

  datatype Item = Words(text: seq<char>) | Conv(flags: seq<char>, width: Size, precision: Size, qual: seq<char>, c: char, arg: Arg)

  predicate IsQual(q: seq<char>) { q in ["", "h", "hh", "l", "ll", "L", "z", "Z", "t"] }

  predicate IsNumber(c: char) { c in "diuoxX" }

  predicate Proper(item: Item) {
    match item
    case Words(text) => '%' !in text
    case Conv(flags, width, precision, qual, c, arg) =>
      && IsFlags(flags) && width != Written(0) && IsQual(qual) && c in "diuoxXcsn%"
      && (IsNumber(c) || c == 'c' ==> arg.IntArg?)
      && (c == 's' ==> !arg.IntArg?)
  }

  function SizeText(z: Size): seq<char> {
    match z
    case Unset => ""
    case Written(n) => Numerals(n, 10, false)
    case Taken(_) => "*"
  }

  function PrecisionText(z: Size): seq<char> { if z.Unset? then "" else "." + SizeText(z) }

  /** The characters of an item in the format. */
  function Source(item: Item): seq<char> {
    match item
    case Words(text) => text
    case Conv(flags, width, precision, qual, c, _) => "%" + flags + SizeText(width) + PrecisionText(precision) + qual + [c]
  }

  function SizeArgs(z: Size): seq<Arg> { if z.Taken? then [IntArg(z.v)] else [] }

  /** The arguments that an item takes. */
  function Args(item: Item): seq<Arg> {
    match item
    case Words(_) => []
    case Conv(_, width, precision, _, c, arg) => SizeArgs(width) + SizeArgs(precision) + if c == '%' then [] else [arg]
  }

  function Format(items: seq<Item>): seq<char> { if items == [] then [] else Source(items[0]) + Format(items[1..]) }

  function AllArgs(items: seq<Item>): seq<Arg> { if items == [] then [] else Args(items[0]) + AllArgs(items[1..]) }

  // ----- What an item stands for -----

  predicate SignedConversion(c: char) { c == 'd' || c == 'i' }

  /** The number of values of the C type that a qualifier names. */
  function Modulus(qual: seq<char>): nat {
    if qual == "hh" then 256 else if qual == "h" then 65536 else if qual == "" then 4294967296 else 18446744073709551616
  }

  /** An argument as a value of that type. */
  function Wrapped(v: int, qual: seq<char>, signed: bool): int {
    var m := v % Modulus(qual);
    if signed && m >= Modulus(qual) / 2 then m - Modulus(qual) else m
  }

  /** The least and the greatest value of the type. */
  function Least(qual: seq<char>, signed: bool): int {
    if !signed then 0
    else if qual == "hh" then -128 else if qual == "h" then -32768 else if qual == "" then -2147483648
    else -9223372036854775808
  }

  function Greatest(qual: seq<char>, signed: bool): int {
    if qual == "hh" then (if signed then 127 else 255)
    else if qual == "h" then (if signed then 32767 else 65535)
    else if qual == "" then (if signed then 2147483647 else 4294967295)
    else if signed then 9223372036854775807 else 18446744073709551615
  }

  /** The value of the type that agrees with v modulo its size: v itself if v is a value of the type, and the only one. */
  lemma WrappedIs(v: int, qual: seq<char>, signed: bool, x: int)
    ensures Least(qual, signed) <= Wrapped(v, qual, signed) <= Greatest(qual, signed)
    ensures (v - Wrapped(v, qual, signed)) % Modulus(qual) == 0
    ensures Least(qual, signed) <= v <= Greatest(qual, signed) ==> Wrapped(v, qual, signed) == v
    ensures Least(qual, signed) <= x <= Greatest(qual, signed) && (v - x) % Modulus(qual) == 0 ==> x == Wrapped(v, qual, signed)
  {
    var m := Modulus(qual);
    if qual == "hh" { Residues(v, x, 256); }
    else if qual == "h" { Residues(v, x, 65536); }
    else if qual == "" { Residues(v, x, 4294967296); }
    else { Residues(v, x, 18446744073709551616); }
  }

  lemma Residues(v: int, x: int, m: int)
    requires m > 0
    ensures var r := v % m;
            && (v - r) % m == 0 && (v - (r - m)) % m == 0
            && (0 <= v < m ==> r == v) && (-m <= v < 0 ==> r == v + m)
            && ((v - x) % m == 0 && -m <= x < m ==> x == r || x == r - m)
  {
    var q, r := v / m, v % m;
    assert v == m * q + r;
    Multiple(q, m);
    Multiple(q + 1, m);
    assert v - (r - m) == m * (q + 1);
    if 0 <= v < m { Near(q, r, m); }
    if -m <= v < 0 { Near(q, r, m); }
    if (v - x) % m == 0 && -m <= x < m {
      var k := (v - x) / m;
      assert v - x == m * k;
      assert x == m * (q - k) + r;
      Near(q - k, r, m);
    }
  }

  function TypeOf(qual: seq<char>, c: char): Type {
    match c
    case 'c' => Char
    case 's' => Str
    case 'n' => NrChars
    case '%' => Percent
    case _ => Integer(KindOf(qual, SignedConversion(c)))
  }

  function KindOf(qual: seq<char>, signed: bool): Kind {
    if qual == "hh" then (if signed then Byte else UByte)
    else if qual == "h" then (if signed then Short else UShort)
    else if qual == "" then (if signed then Int else UInt)
    else if qual == "l" then (if signed then Long else ULong)
    else if qual == "ll" || qual == "L" then LongLong
    else if qual == "t" then PtrDiff
    else SizeT
  }

  function WidthOf(z: Size): int {
    match z
    case Unset => -1
    case Written(n) => n
    case Taken(v) => if v < 0 then -v else v
  }

  function PrecisionOf(z: Size): int {
    match z
    case Unset => -1
    case Written(n) => n
    case Taken(v) => if v < 0 then 0 else v
  }

  /** The specification that a conversion stands for, read off its parts. */
  function SpecOf(item: Item): (spec: Spec)
    requires item.Conv?
    ensures PrintBase(spec.base)
  {
    var f, c := item.flags, item.c;
    Spec(TypeOf(item.qual, c), '0' in f, SignedConversion(c), '+' in f, ' ' in f, '-' in f || (item.width.Taken? && item.width.v < 0),
         c == 'x', '#' in f, if c == 'o' then 8 else if c == 'x' || c == 'X' then 16 else 10,
         WidthOf(item.width), PrecisionOf(item.precision))
  }

  function StringOf(arg: Arg): seq<char> { if arg.StrArg? then arg.s else "(null)" }

  /** What an item prints. */
  function ItemText(item: Item): seq<char>
    requires Proper(item)
  {
    match item
    case Words(text) => text
    case Conv(_, _, _, qual, c, arg) =>
      if c == '%' then "%"
      else if c == 'n' then ""
      else if c == 'c' then CharText(arg.v, SpecOf(item))
      else if c == 's' then StrText(StringOf(arg), SpecOf(item))
      else NumberText(Wrapped(arg.v, qual, SignedConversion(c)) % U64, SpecOf(item))
  }

  function AllText(items: seq<Item>): seq<char>
    requires forall i :: 0 <= i < |items| ==> Proper(items[i])
  {
    if items == [] then [] else ItemText(items[0]) + AllText(items[1..])
  }

  lemma WordIs(v: int, qual: seq<char>, c: char)
    requires IsQual(qual) && IsNumber(c)
    ensures Word(v, KindOf(qual, SignedConversion(c))) == Wrapped(v, qual, SignedConversion(c)) % U64
  {
    Casts(v);
    Wide(v);
  }

  lemma Casts(v: int)
    ensures Cast(v, 8) == (if v % 256 >= 128 then v % 256 - 256 else v % 256)
    ensures Cast(v, 16) == (if v % 65536 >= 32768 then v % 65536 - 65536 else v % 65536)
    ensures Cast(v, 32) == (if v % 4294967296 >= 2147483648 then v % 4294967296 - 4294967296 else v % 4294967296)
  {
    Recentred(v, 128);
    Recentred(v, 32768);
    Recentred(v, 2147483648);
  }

  lemma Recentred(v: int, h: int)
    requires h > 0
    ensures (v + h) % (2 * h) - h == if v % (2 * h) >= h then v % (2 * h) - 2 * h else v % (2 * h)
  {
    var m := 2 * h;
    Residues(v + h, v % m + h, m);
    Residues(v, v, m);
    assert (v + h) - (v % m + h) == v - v % m;
    if v % m >= h {
      Residues(v + h, v % m - h, m);
      assert (v + h) - (v % m - h) == v - (v % m - m);
    }
  }

  lemma Wide(v: int)
    ensures (v % U64 - U64) % U64 == v % U64
  {
  }

  // ----- Decoding -----

  predicate IsFlags(flags: seq<char>) { forall i :: 0 <= i < |flags| ==> IsFlag(flags[i]) }

  function Add(spec: Spec, zero: bool, plus: bool, blank: bool, left: bool, special: bool): Spec {
    spec.(zeropad := spec.zeropad || zero, plus := spec.plus || plus, space := spec.space || blank, left := spec.left || left,
          special := spec.special || special)
  }

  function WithFlags(spec: Spec, flags: seq<char>): Spec {
    Add(spec, '0' in flags, '+' in flags, ' ' in flags, '-' in flags, '#' in flags)
  }

  lemma {:induction false} FlagsRead(fmt: seq<char>, i: nat, flags: seq<char>, spec: Spec)
    requires IsFlags(flags) && i + |flags| < |fmt| && fmt[i..i + |flags|] == flags && !IsFlag(fmt[i + |flags|])
    ensures Flags(fmt, i, spec) == (i + |flags|, WithFlags(spec, flags))
    decreases |flags|
  {
    if flags == [] {
    } else {
      assert fmt[i] == flags[0];
      assert fmt[i + 1..i + 1 + |flags[1..]|] == flags[1..];
      FlagsRead(fmt, i + 1, flags[1..], SetFlag(spec, fmt[i]));
      FlagSet(spec, flags);
    }
  }

  lemma FlagSet(spec: Spec, flags: seq<char>)
    requires flags != [] && IsFlag(flags[0])
    ensures WithFlags(SetFlag(spec, flags[0]), flags[1..]) == WithFlags(spec, flags)
  {
    hide Add, SetFlag, IsFlag;
    var c, rest := flags[0], flags[1..];
    InTail(flags, '0');
    InTail(flags, '+');
    InTail(flags, ' ');
    InTail(flags, '-');
    InTail(flags, '#');
    AddSet(spec, c, '0' in rest, '+' in rest, ' ' in rest, '-' in rest, '#' in rest);
  }

  lemma InTail(flags: seq<char>, x: char)
    requires flags != []
    ensures x in flags <==> x in flags[1..] || flags[0] == x
  {
  }

  lemma AddSet(spec: Spec, c: char, zero: bool, plus: bool, blank: bool, left: bool, special: bool)
    requires IsFlag(c)
    ensures Add(SetFlag(spec, c), zero, plus, blank, left, special)
         == Add(spec, zero || c == '0', plus || c == '+', blank || c == ' ', left || c == '-', special || c == '#')
  {
  }

  predicate NotDigitAt(fmt: seq<char>, i: nat) { i < |fmt| ==> !IsDigit(fmt[i]) }

  /** Decimal digits in the format are read as their value. */
  lemma {:induction false} AtoiReads(fmt: seq<char>, i: nat, n: nat)
    requires var t := Numerals(n, 10, false); i + |t| <= |fmt| && fmt[i..i + |t|] == t && NotDigitAt(fmt, i + |t|)
    ensures var t := Numerals(n, 10, false); Atoi(fmt, i, 0) == (i + |t|, n) && t != [] && IsDigit(fmt[i]) && (n != 0 ==> fmt[i] != '0')
  {
    hide Numerals, Atoi, Value;
    NumeralsAre(n, 10, false);
    var t := Numerals(n, 10, false);
    assert t[0] == fmt[i..i + |t|][0] == fmt[i];
    ValueEmpty(t, 10);
    AtoiFrom(fmt, i, t, 0);
    assert t[..|t|] == t;
  }

  lemma {:induction false} AtoiFrom(fmt: seq<char>, i: nat, t: seq<char>, k: nat)
    requires k <= |t| && i + |t| <= |fmt| && fmt[i..i + |t|] == t && NotDigitAt(fmt, i + |t|)
    requires forall j :: 0 <= j < |t| ==> DigitOf(t[j]) < 10
    ensures Atoi(fmt, i + k, Value(DigitsOf(t[..k]), 10)) == (i + |t|, Value(DigitsOf(t[..|t|]), 10))
    decreases |t| - k
  {
    hide Value, DigitsOf;
    if k == |t| {
    } else {
      AtoiFrom(fmt, i, t, k + 1);
      ValueStep(t, k, 10);
      assert fmt[i + k] == fmt[i..i + |t|][k] == t[k];
    }
  }

  /** Where a part of the format stands. */
  predicate PartAt(fmt: seq<char>, i: nat, part: seq<char>) { i + |part| <= |fmt| && fmt[i..i + |part|] == part }

  lemma SplitPart(fmt: seq<char>, i: nat, a: seq<char>, b: seq<char>)
    requires PartAt(fmt, i, a + b)
    ensures PartAt(fmt, i, a) && PartAt(fmt, i + |a|, b)
  {
    assert fmt[i..i + |a|] == fmt[i..i + |a + b|][..|a|] == a;
    assert fmt[i + |a|..i + |a| + |b|] == fmt[i..i + |a + b|][|a|..] == b;
  }

  function Finish(s: Spec, qual: seq<char>, c: char): Spec {
    s.(ty := TypeOf(qual, c), sign := s.sign || SignedConversion(c), small := s.small || c == 'x',
       base := if c == 'o' then 8 else if c == 'x' || c == 'X' then 16 else 10)
  }

  function QualifierOf(qual: seq<char>): Qualifier {
    if qual == "" then NoQual else if qual == "h" then Qh else if qual == "hh" then QH else if qual == "l" then Ql
    else if qual == "ll" || qual == "L" then QL else if qual == "t" then Qt else Qz
  }

  lemma QualifierRead(fmt: seq<char>, i: nat, qual: seq<char>, c: char)
    requires IsQual(qual) && c in "diuoxXcsn%" && PartAt(fmt, i, qual + [c])
    ensures DecodeQualifier(fmt, i) == (i + |qual|, QualifierOf(qual)) && At(fmt, i + |qual|) == c
  {
    var part := qual + [c];
    assert forall k :: 0 <= k < |part| ==> fmt[i + k] == fmt[i..i + |part|][k] == part[k];
    assert fmt[i + |qual|] == c;
    assert qual != "" ==> fmt[i] == qual[0];
    assert |qual| == 2 ==> fmt[i + 1] == qual[1];
  }

  lemma ConversionRead(fmt: seq<char>, i: nat, qual: seq<char>, c: char, s: Spec)
    requires IsQual(qual) && c in "diuoxXcsn%" && PartAt(fmt, i, qual + [c]) && s.ty == None && !s.sign && !s.small
    ensures DecodeConversion(fmt, i, s) == (i + |qual| + 1, Finish(s, qual, c))
  {
    hide DecodeQualifier, At, PartAt;
    QualifierRead(fmt, i, qual, c);
    ConvertIs(qual, c, s.(base := 10));
  }

  lemma ConvertIs(qual: seq<char>, c: char, s: Spec)
    requires IsQual(qual) && c in "diuoxXcsn%" && s.ty == None && s.base == 10 && !s.sign && !s.small
    ensures Convert(c, QualifierOf(qual), s) == (1, Finish(s, qual, c))
  {
    hide KindOf, QualifierOf, IntegerKind, IsQual;
    KindIs(qual, SignedConversion(c));
  }

  lemma KindIs(qual: seq<char>, signed: bool)
    requires IsQual(qual)
    ensures IntegerKind(QualifierOf(qual), signed) == KindOf(qual, signed)
  {
  }

  /** After a precision in the format. */
  lemma PrecisionRead(fmt: seq<char>, i: nat, item: Item, s: Spec)
    requires Proper(item) && item.Conv? && !item.precision.Taken? && s.ty == None && !s.sign && !s.small
    requires PartAt(fmt, i, PrecisionText(item.precision) + (item.qual + [item.c]))
    ensures DecodePrecision(fmt, i, s)
         == (i + |PrecisionText(item.precision)| + |item.qual| + 1, Finish(s.(precision := PrecisionOf(item.precision)), item.qual, item.c))
  {
    hide DecodeConversion, Numerals, PartAt, Atoi, Finish;
    var part, tail := PrecisionText(item.precision), item.qual + [item.c];
    SplitPart(fmt, i, part, tail);
    var s1 := s.(precision := -1);
    TailStarts(fmt, i + |part|, item.qual, item.c);
    ConversionRead(fmt, i + |part|, item.qual, item.c, s.(precision := PrecisionOf(item.precision)));
    if item.precision.Written? {
      DotRead(fmt, i, item.precision.n);
    }
  }

  /** The character after the width or precision is neither a digit, a star nor a dot. */
  lemma TailStarts(fmt: seq<char>, i: nat, qual: seq<char>, c: char)
    requires IsQual(qual) && c in "diuoxXcsn%" && PartAt(fmt, i, qual + [c])
    ensures i < |fmt| && NotDigitAt(fmt, i) && fmt[i] != '*' && fmt[i] != '.' && !IsFlag(fmt[i])
  {
    var part := qual + [c];
    assert fmt[i] == fmt[i..i + |part|][0] == part[0];
  }

  lemma DotRead(fmt: seq<char>, i: nat, n: nat)
    requires var t := Numerals(n, 10, false); PartAt(fmt, i, "." + t) && NotDigitAt(fmt, i + 1 + |t|)
    ensures var t := Numerals(n, 10, false); t != [] && At(fmt, i) == '.' && At(fmt, i + 1) != '*' && Atoi(fmt, i + 1, 0) == (i + 1 + |t|, n)
  {
    hide Numerals, Atoi;
    var t := Numerals(n, 10, false);
    SplitPart(fmt, i, ".", t);
    assert fmt[i] == fmt[i..i + 1][0] == '.';
    AtoiReads(fmt, i + 1, n);
  }

  /** A precision that is taken from the arguments stops the decoding. */
  lemma PrecisionTaken(fmt: seq<char>, i: nat, item: Item, s: Spec)
    requires Proper(item) && item.Conv? && item.precision.Taken? && s.ty == None
    requires PartAt(fmt, i, PrecisionText(item.precision) + (item.qual + [item.c]))
    ensures DecodePrecision(fmt, i, s) == (i + 2, s.(precision := -1, ty := Precision)) && PartAt(fmt, i + 2, item.qual + [item.c])
  {
    hide DecodeConversion, Atoi;
    SplitPart(fmt, i, ".*", item.qual + [item.c]);
    assert fmt[i] == fmt[i..i + 2][0] == '.' && fmt[i + 1] == fmt[i..i + 2][1] == '*';
  }

  function Tail(item: Item): seq<char>
    requires item.Conv?
  {
    PrecisionText(item.precision) + (item.qual + [item.c])
  }

  /** What follows the width is neither a digit, a star nor a flag. */
  lemma AfterWidth(fmt: seq<char>, i: nat, item: Item)
    requires Proper(item) && item.Conv? && PartAt(fmt, i, Tail(item))
    ensures i < |fmt| && NotDigitAt(fmt, i) && fmt[i] != '*' && !IsFlag(fmt[i])
  {
    hide Numerals;
    if item.precision.Unset? {
      assert [] + (item.qual + [item.c]) == item.qual + [item.c];
      TailStarts(fmt, i, item.qual, item.c);
    } else {
      assert fmt[i] == fmt[i..i + |Tail(item)|][0] == '.';
    }
  }

  lemma WidthRead(fmt: seq<char>, i: nat, item: Item, s: Spec)
    requires Proper(item) && item.Conv? && !item.width.Taken? && s.ty == None && s.width == -1
    requires PartAt(fmt, i, SizeText(item.width) + Tail(item))
    ensures !IsFlag(At(fmt, i)) && PartAt(fmt, i + |SizeText(item.width)|, Tail(item))
    ensures DecodeWidth(fmt, i, s) == DecodePrecision(fmt, i + |SizeText(item.width)|, s.(width := WidthOf(item.width)))
  {
    hide DecodePrecision, Numerals, Atoi, PartAt, Tail;
    var t := SizeText(item.width);
    SplitPart(fmt, i, t, Tail(item));
    AfterWidth(fmt, i + |t|, item);
    if item.width.Written? {
      AtoiAt(fmt, i, item.width.n);
    } else {
      assert Atoi(fmt, i, 0) == (i, 0) by { NoAtoi(fmt, i); }
    }
  }

  lemma AtoiAt(fmt: seq<char>, i: nat, n: nat)
    requires n != 0
    requires var t := Numerals(n, 10, false); PartAt(fmt, i, t) && NotDigitAt(fmt, i + |t|)
    ensures var t := Numerals(n, 10, false);
            t != [] && Atoi(fmt, i, 0) == (i + |t|, n) && At(fmt, i) != '*' && !IsFlag(At(fmt, i))
  {
    hide Numerals, Atoi;
    AtoiReads(fmt, i, n);
  }

  lemma NoAtoi(fmt: seq<char>, i: nat)
    requires i <= |fmt| && NotDigitAt(fmt, i)
    ensures Atoi(fmt, i, 0) == (i, 0)
  {
  }

  /** The specification after the '%' and the flags. */
  function Flagged(flags: seq<char>, spec: Spec): Spec {
    WithFlags(Spec(None, false, false, false, false, false, false, false, spec.base, -1, spec.precision), flags)
  }

  lemma PercentRead(fmt: seq<char>, flags: seq<char>, spec: Spec)
    requires IsFlags(flags) && PartAt(fmt, 0, "%" + flags) && |flags| + 1 < |fmt| && !IsFlag(fmt[|flags| + 1]) && !Pending(spec)
    ensures Decode(fmt, spec) == DecodeWidth(fmt, |flags| + 1, Flagged(flags, spec))
  {
    hide DecodeWidth, WithFlags, Flags, IsFlags, IsFlag;
    SplitPart(fmt, 0, "%", flags);
    assert fmt[0] == fmt[0..1][0] == '%';
    FlagsRead(fmt, 1, flags, Spec(None, false, false, false, false, false, false, false, spec.base, -1, spec.precision));
  }

  // ----- Rendering -----

  /** A decoded conversion prints its text and takes its argument. */
  lemma {:induction false} ConversionPrinted(fmt: seq<char>, spec: Spec, read: nat, s: Spec, item: Item, more: seq<Arg>, rest: seq<char>)
    requires Proper(item) && item.Conv? && s == SpecOf(item) && fmt != []
    requires read <= |fmt| && Decode(fmt, spec) == (read, s) && fmt[read..] == rest
    ensures Render(fmt, spec, (if item.c == '%' then [] else [item.arg]) + more) == ItemText(item) + Render(rest, s, more)
  {
    hide Render, NextToken, ItemText, Proper, SpecOf, Decode;
    var args := (if item.c == '%' then [] else [item.arg]) + more;
    RenderStep(fmt, spec, args);
    if item.c == '%' {
      assert args == more;
    } else {
      assert args[0] == item.arg && args[1..] == more;
    }
    TokenIs(fmt, spec, read, item, args, more);
  }

  lemma {:induction false} TokenIs(fmt: seq<char>, spec: Spec, read: nat, item: Item, args: seq<Arg>, more: seq<Arg>)
    requires Proper(item) && item.Conv? && fmt != [] && read <= |fmt| && Decode(fmt, spec) == (read, SpecOf(item))
    requires if item.c == '%' then args == more else args != [] && args[0] == item.arg && args[1..] == more
    ensures NextToken(fmt, spec, args) == Token(ItemText(item), more, SpecOf(item), read)
  {
    hide Decode, Word, NumberText, CharText, StrText, Wrapped, KindOf, IsFlags, WidthOf, PrecisionOf;
    if IsNumber(item.c) {
      NumberToken(fmt, spec, read, item, args, more);
    }
  }

  lemma {:induction false} NumberToken(fmt: seq<char>, spec: Spec, read: nat, item: Item, args: seq<Arg>, more: seq<Arg>)
    requires Proper(item) && item.Conv? && fmt != [] && read <= |fmt| && Decode(fmt, spec) == (read, SpecOf(item))
    requires IsNumber(item.c) && args != [] && args[0] == item.arg && args[1..] == more
    ensures NextToken(fmt, spec, args) == Token(ItemText(item), more, SpecOf(item), read)
  {
    hide Decode, Word, NumberText, CharText, StrText, Wrapped, KindOf, IsFlags, WidthOf, PrecisionOf;
    WordIs(item.arg.v, item.qual, item.c);
  }

  /** The end of a conversion: its precision, qualifier and conversion character. */
  lemma {:induction false} TailPrinted(fmt: seq<char>, spec: Spec, i: nat, s: Spec, item: Item, more: seq<Arg>, rest: seq<char>)
    requires Proper(item) && item.Conv? && fmt != []
    requires s.ty == None && !s.sign && !s.small && Finish(s.(precision := PrecisionOf(item.precision)), item.qual, item.c) == SpecOf(item)
    requires PartAt(fmt, i, Tail(item)) && fmt[i + |Tail(item)|..] == rest && Decode(fmt, spec) == DecodePrecision(fmt, i, s)
    ensures Render(fmt, spec, SizeArgs(item.precision) + (if item.c == '%' then [] else [item.arg]) + more)
         == ItemText(item) + Render(rest, SpecOf(item), more)
  {
    hide Render, Decode, DecodePrecision, Finish, ItemText, SpecOf, Numerals, IsFlags, PartAt, IsQual;
    var own := if item.c == '%' then [] else [item.arg];
    var args := SizeArgs(item.precision) + own + more;
    if !item.precision.Taken? {
      PrecisionRead(fmt, i, item, s);
      assert args == own + more;
      ConversionPrinted(fmt, spec, i + |Tail(item)|, SpecOf(item), item, more, rest);
    } else {
      PrecisionTaken(fmt, i, item, s);
      assert args == [IntArg(item.precision.v)] + (own + more);
      TakenPrinted(fmt, spec, i + 2, s, item, own + more);
      LastPrinted(fmt, i + 2, s, item, more, rest);
    }
  }

  lemma {:induction false} LastPrinted(fmt: seq<char>, i: nat, s: Spec, item: Item, more: seq<Arg>, rest: seq<char>)
    requires Proper(item) && item.Conv? && item.precision.Taken?
    requires s.ty == None && !s.sign && !s.small && Finish(s.(precision := PrecisionOf(item.precision)), item.qual, item.c) == SpecOf(item)
    requires PartAt(fmt, i, item.qual + [item.c]) && fmt[i + |item.qual| + 1..] == rest
    ensures Render(fmt[i..], s.(precision := item.precision.v, ty := Precision), (if item.c == '%' then [] else [item.arg]) + more)
         == ItemText(item) + Render(rest, SpecOf(item), more)
  {
    hide Render, Decode, DecodeConversion, Finish, ItemText, SpecOf, IsFlags, IsQual;
    var fmt1, s1 := fmt[i..], s.(precision := item.precision.v, ty := Precision);
    assert fmt1[0..|item.qual| + 1] == fmt[i..i + |item.qual| + 1];
    assert fmt1[|item.qual| + 1..] == rest;
    PendingPrecision(fmt1, s1);
    ConversionRead(fmt1, 0, item.qual, item.c, s.(precision := PrecisionOf(item.precision)));
    ConversionPrinted(fmt1, s1, |item.qual| + 1, SpecOf(item), item, more, rest);
  }

  lemma PendingPrecision(fmt: seq<char>, s: Spec)
    requires s.ty == Precision
    ensures Decode(fmt, s) == DecodeConversion(fmt, 0, s.(precision := if s.precision < 0 then 0 else s.precision, ty := None))
  {
    hide DecodeConversion;
  }

  lemma {:induction false} TakenPrinted(fmt: seq<char>, spec: Spec, read: nat, s: Spec, item: Item, args: seq<Arg>)
    requires item.Conv? && item.precision.Taken? && fmt != [] && read <= |fmt|
    requires Decode(fmt, spec) == (read, s.(precision := -1, ty := Precision))
    ensures Render(fmt, spec, [IntArg(item.precision.v)] + args) == Render(fmt[read..], s.(precision := item.precision.v, ty := Precision), args)
  {
    hide Decode;
    var all := [IntArg(item.precision.v)] + args;
    assert all[1..] == args;
    RenderStep(fmt, spec, all);
  }

  /** A width that is taken from the arguments. */
  lemma {:induction false} WidthPrinted(fmt: seq<char>, spec: Spec, read: nat, s: Spec, v: int, args: seq<Arg>)
    requires fmt != [] && read <= |fmt| && Decode(fmt, spec) == (read, s.(ty := Width)) && s.ty == None
    ensures Render(fmt, spec, [IntArg(v)] + args) == Render(fmt[read..], s.(width := v, ty := Width), args)
  {
    hide Decode, Render;
    var all := [IntArg(v)] + args;
    assert all[1..] == args;
    RenderStep(fmt, spec, all);
  }

  lemma PendingWidth(fmt: seq<char>, s: Spec, v: int)
    requires s.ty == None
    ensures Decode(fmt, s.(width := v, ty := Width))
         == DecodePrecision(fmt, 0, s.(width := if v < 0 then -v else v, left := s.left || v < 0))
  {
    hide DecodePrecision;
  }

  lemma FinishIs(item: Item, spec: Spec)
    requires item.Conv?
    ensures var f, p := Flagged(item.flags, spec), PrecisionOf(item.precision);
            && f.ty == None && !f.sign && !f.small && f.width == -1
            && (if item.width.Taken? then
                  Finish(f.(width := WidthOf(item.width), left := f.left || item.width.v < 0).(precision := p), item.qual, item.c)
                else Finish(f.(width := WidthOf(item.width)).(precision := p), item.qual, item.c))
               == SpecOf(item)
  {
    hide TypeOf, PrecisionOf, WidthOf;
  }

  /** One conversion between the specification before it and what follows. */
  lemma {:induction false} ItemPrinted(item: Item, rest: seq<char>, spec: Spec, more: seq<Arg>)
    requires Proper(item) && item.Conv? && !Pending(spec)
    ensures Render(Source(item) + rest, spec, Args(item) + more) == ItemText(item) + Render(rest, SpecOf(item), more)
  {
    hide Render, Source, ItemText, SpecOf, Proper;
    var own := if item.c == '%' then [] else [item.arg];
    if item.width.Taken? {
      assert Args(item) + more == [IntArg(item.width.v)] + (SizeArgs(item.precision) + own + more);
      TakenWidthPrinted(item, rest, spec, more);
    } else {
      assert Args(item) + more == SizeArgs(item.precision) + own + more;
      WrittenWidthPrinted(item, rest, spec, more);
    }
  }

  lemma {:induction false} WrittenWidthPrinted(item: Item, rest: seq<char>, spec: Spec, more: seq<Arg>)
    requires Proper(item) && item.Conv? && !item.width.Taken? && !Pending(spec)
    ensures Render(Source(item) + rest, spec, SizeArgs(item.precision) + (if item.c == '%' then [] else [item.arg]) + more)
         == ItemText(item) + Render(rest, SpecOf(item), more)
  {
    hide Render, Decode, DecodePrecision, DecodeWidth, Source, Tail, SizeText, SizeArgs, Flagged, Finish, ItemText, SpecOf, IsFlags, IsFlag,
         PartAt, WidthOf, PrecisionOf;
    var fmt, k, f := Source(item) + rest, |item.flags| + 1, Flagged(item.flags, spec);
    SourceParts(item, rest);
    FinishIs(item, spec);
    WidthRead(fmt, k, item, f);
    FlagEnds(fmt, k, item);
    PercentRead(fmt, item.flags, spec);
    TailPrinted(fmt, spec, k + |SizeText(item.width)|, f.(width := WidthOf(item.width)), item, more, rest);
  }

  lemma {:induction false} TakenWidthPrinted(item: Item, rest: seq<char>, spec: Spec, more: seq<Arg>)
    requires Proper(item) && item.Conv? && item.width.Taken? && !Pending(spec)
    ensures Render(Source(item) + rest, spec,
                   [IntArg(item.width.v)] + (SizeArgs(item.precision) + (if item.c == '%' then [] else [item.arg]) + more))
         == ItemText(item) + Render(rest, SpecOf(item), more)
  {
    hide Render, Decode, DecodePrecision, DecodeWidth, Source, Tail, SizeArgs, Flagged, Finish, ItemText, SpecOf, IsFlags, IsFlag,
         PartAt, PrecisionOf;
    var fmt, k, f := Source(item) + rest, |item.flags| + 1, Flagged(item.flags, spec);
    var v, args := item.width.v, SizeArgs(item.precision) + (if item.c == '%' then [] else [item.arg]) + more;
    SourceParts(item, rest);
    FinishIs(item, spec);
    StarRead(fmt, k, f);
    PercentRead(fmt, item.flags, spec);
    WidthPrinted(fmt, spec, k + 1, f, v, args);
    PendingWidth(fmt[k + 1..], f, v);
    TailMoved(fmt, k + 1, item, rest);
    TailPrinted(fmt[k + 1..], f.(width := v, ty := Width), 0, f.(width := if v < 0 then -v else v, left := f.left || v < 0), item, more, rest);
  }

  lemma TailMoved(fmt: seq<char>, i: nat, item: Item, rest: seq<char>)
    requires item.Conv? && PartAt(fmt, i, Tail(item)) && fmt[i + |Tail(item)|..] == rest
    ensures fmt[i..] != [] && PartAt(fmt[i..], 0, Tail(item)) && fmt[i..][|Tail(item)|..] == rest
  {
    hide Numerals;
    assert fmt[i..][0..|Tail(item)|] == fmt[i..i + |Tail(item)|];
  }

  lemma StarRead(fmt: seq<char>, k: nat, s: Spec)
    requires PartAt(fmt, k, "*") && s.ty == None
    ensures k < |fmt| && !IsFlag(fmt[k]) && DecodeWidth(fmt, k, s) == (k + 1, s.(ty := Width))
  {
    assert fmt[k] == fmt[k..k + 1][0] == '*';
  }

  lemma FlagEnds(fmt: seq<char>, k: nat, item: Item)
    requires item.Conv? && PartAt(fmt, k, SizeText(item.width) + Tail(item)) && !IsFlag(At(fmt, k))
    ensures k < |fmt| && !IsFlag(fmt[k])
  {
    hide IsFlag, Numerals;
  }

  lemma SourceParts(item: Item, rest: seq<char>)
    requires item.Conv?
    ensures var fmt, k := Source(item) + rest, |item.flags| + 1;
            && fmt != [] && PartAt(fmt, 0, "%" + item.flags) && PartAt(fmt, k, SizeText(item.width) + Tail(item))
            && PartAt(fmt, k, SizeText(item.width)) && PartAt(fmt, k + |SizeText(item.width)|, Tail(item))
            && fmt[k + |SizeText(item.width)| + |Tail(item)|..] == rest
  {
    hide Numerals;
    var fmt := Source(item) + rest;
    var a, b, c := "%" + item.flags, SizeText(item.width), Tail(item);
    assert Source(item) == a + (b + c);
    assert fmt[0..|a + (b + c)|] == a + (b + c);
    SplitPart(fmt, 0, a, b + c);
    SplitPart(fmt, |a|, b, c);
  }

  /** Text without a conversion is printed as it is. */
  lemma {:induction false} WordsPrinted(text: seq<char>, rest: seq<char>, spec: Spec, args: seq<Arg>)
    requires '%' !in text && !Pending(spec) && text != []
    ensures Render(text + rest, spec, args) == text + Render(rest, spec.(ty := None), args)
  {
    hide Decode, Render, NextToken;
    var fmt, s := text + rest, spec.(ty := None);
    var n := |text| + Literal(rest);
    LiteralIs(text, rest);
    PlainPrinted(fmt, n, spec, args);
    assert fmt[..n] == text + rest[..Literal(rest)] && fmt[n..] == rest[Literal(rest)..];
    if Literal(rest) > 0 {
      PlainPrinted(rest, Literal(rest), s, args);
    } else {
      assert rest[0..] == rest;
    }
  }

  lemma {:induction false} PlainPrinted(fmt: seq<char>, n: nat, spec: Spec, args: seq<Arg>)
    requires Literal(fmt) == n > 0 && !Pending(spec)
    ensures Render(fmt, spec, args) == fmt[..n] + Render(fmt[n..], spec.(ty := None), args)
  {
    hide Literal, Render, DecodeWidth, Flags;
    RenderStep(fmt, spec, args);
  }

  lemma {:induction false} LiteralIs(text: seq<char>, rest: seq<char>)
    requires '%' !in text
    ensures Literal(text + rest) == |text| + Literal(rest)
  {
    if text == [] {
      assert text + rest == rest;
    } else {
      assert (text + rest)[0] == text[0] && (text + rest)[1..] == text[1..] + rest;
      LiteralIs(text[1..], rest);
    }
  }

  /** Items are printed in order, each with the arguments behind those of the items before it. */
  lemma {:induction false} ItemsPrinted(items: seq<Item>, spec: Spec, more: seq<Arg>)
    requires (forall i :: 0 <= i < |items| ==> Proper(items[i])) && !Pending(spec)
    ensures Render(Format(items), spec, AllArgs(items) + more) == AllText(items)
  {
    hide Render, Proper, SpecOf, Source, Args, ItemText;
    if items == [] {
      RenderEnd(spec, more);
      assert [] + more == more;
    } else {
      var first, rest := items[0], items[1..];
      assert AllArgs(items) + more == Args(first) + (AllArgs(rest) + more);
      match first {
        case Words(text) =>
          WordsItem(first, Format(rest), spec, AllArgs(rest) + more);
          ItemsPrinted(rest, if text == [] then spec else spec.(ty := None), more);
        case Conv(_, _, _, _, _, _) =>
          ItemPrinted(first, Format(rest), spec, AllArgs(rest) + more);
          assert !Pending(SpecOf(first)) by { Settled(first); }
          ItemsPrinted(rest, SpecOf(first), more);
      }
    }
  }

  lemma Settled(item: Item)
    requires item.Conv?
    ensures !Pending(SpecOf(item))
  {
  }

  lemma {:induction false} WordsItem(item: Item, rest: seq<char>, spec: Spec, args: seq<Arg>)
    requires Proper(item) && item.Words? && !Pending(spec)
    ensures Render(Source(item) + rest, spec, Args(item) + args)
         == ItemText(item) + Render(rest, if item.text == [] then spec else spec.(ty := None), args)
  {
    hide Render;
    assert [] + args == args;
    if item.text == [] {
      assert [] + rest == rest;
    } else {
      WordsPrinted(item.text, rest, spec, args);
    }
  }

  /** printf prints its items in order and takes their arguments in order; arguments left over do not matter. */
  lemma {:induction false} FormatIsPrinted(items: seq<Item>, more: seq<Arg>)
    requires forall i :: 0 <= i < |items| ==> Proper(items[i])
    ensures Output(Format(items), AllArgs(items) + more) == AllText(items)
  {
    hide Render, Format, AllArgs, AllText, Proper;
    ItemsPrinted(items, NO_SPEC, more);
  }

  /** An unknown conversion is printed as it stands in the format, and takes no argument. */
  lemma {:induction false} UnknownPrinted(c: char, rest: seq<char>, spec: Spec, args: seq<Arg>)
    requires c !in "-+ #0123456789*.hlLzZtcspndiuoxX%" && c != '\0' && !Pending(spec)
    ensures exists s :: !Pending(s) && Render("%" + [c] + rest, spec, args) == "%" + [c] + Render(rest, s, args)
  {
    hide Render, WithFlags;
    var fmt, f := "%" + [c] + rest, Flagged([], spec);
    assert fmt[0..1] == "%" + [] && fmt[1] == c;
    PercentRead(fmt, [], spec);
    FinishIs(Conv([], Unset, Unset, [], 'd', IntArg(0)), spec);
    var s := f.(precision := -1, base := 10, ty := Invalid);
    UnknownRead(fmt, c, f);
    RenderStep(fmt, spec, args);
    assert fmt[1..] == [c] + rest;
    WordsPrinted([c], rest, s, args);
    assert "%" + ([c] + Render(rest, s.(ty := None), args)) == "%" + [c] + Render(rest, s.(ty := None), args);
  }

  lemma UnknownRead(fmt: seq<char>, c: char, f: Spec)
    requires |fmt| > 1 && fmt[1] == c && c !in "-+ #0123456789*.hlLzZtcspndiuoxX%" && f.ty == None
    ensures DecodeWidth(fmt, 1, f) == (1, f.(precision := -1, base := 10, ty := Invalid))
  {
    NoAtoi(fmt, 1);
  }

  // ----- What the items look like -----

  /** A number of any type in any field: the value of its type that agrees with the argument, laid out as number() does. */
  lemma {:induction false} NumberItem(item: Item) returns (before: nat, zeros: nat, after: nat)
    requires Proper(item) && item.Conv? && IsNumber(item.c)
    ensures var x := Wrapped(item.arg.v, item.qual, SignedConversion(item.c));
            Laid(ItemText(item), x, SpecOf(item), before, zeros, after) && Sides(x, SpecOf(item), before, zeros, after)
  {
    hide Laid, Sides, NumberText, IsFlags;
    var x, spec := Wrapped(item.arg.v, item.qual, SignedConversion(item.c)), SpecOf(item);
    PrintedIs(item.arg.v, item.qual, item.c, spec);
    before, zeros, after := NumberIsLaid(x % U64, spec);
  }

  lemma PrintedIs(v: int, qual: seq<char>, c: char, spec: Spec)
    requires spec.sign == SignedConversion(c)
    ensures Printed(Wrapped(v, qual, SignedConversion(c)) % U64, spec) == Wrapped(v, qual, SignedConversion(c))
  {
    hide Wrapped;
    WrappedIs(v, qual, SignedConversion(c), 0);
  }

  /** A string: its first characters up to the precision, with blanks in front, or behind it with '-' or a negative width. */
  lemma StringItem(item: Item) returns (before: nat, shown: nat, after: nat)
    requires Proper(item) && item.Conv? && item.c == 's'
    ensures var text, s, spec := ItemText(item), StringOf(item.arg), SpecOf(item);
            && shown == (if item.precision.Unset? || spec.precision > |s| then |s| else spec.precision) <= |s|
            && |text| == before + shown + after == Max(spec.width, shown) && text[before..before + shown] == s[..shown]
            && (if spec.left then before == 0 else after == 0)
            && (forall i :: 0 <= i < |text| && !(before <= i < before + shown) ==> text[i] == ' ')
  {
    hide IsFlags, Numerals, NumberText;
    var s, spec := StringOf(item.arg), SpecOf(item);
    shown := |Shown(s, spec)|;
    var pad := Max(0, spec.width - shown);
    before, after := if spec.left then 0 else pad, if spec.left then pad else 0;
    assert Shown(s, spec) == s[..shown];
  }

  /** A character in its field. */
  lemma CharItem(item: Item) returns (at: nat)
    requires Proper(item) && item.Conv? && item.c == 'c'
    ensures var text, spec := ItemText(item), SpecOf(item);
            && |text| == Max(spec.width, 1) && at == (if spec.left then 0 else |text| - 1) && text[at] as int == item.arg.v % 256
            && (forall i :: 0 <= i < |text| && i != at ==> text[i] == ' ')
  {
    hide IsFlags, Numerals, NumberText;
    var spec := SpecOf(item);
    at := if spec.left then 0 else Max(spec.width, 1) - 1;
  }

  // ----- Reading numbers back -----

  lemma {:induction false} OnePrinted(item: Item)
    requires Proper(item)
    ensures Output(Source(item), Args(item)) == ItemText(item)
  {
    hide Output, Proper, Source, Args, ItemText;
    FormatIsPrinted([item], []);
    assert [item][1..] == [];
    assert Format([item]) == Source(item) + [] && AllArgs([item]) == Args(item) + [] && AllText([item]) == ItemText(item) + [];
    assert Source(item) + [] == Source(item) && Args(item) + [] + [] == Args(item) && ItemText(item) + [] == ItemText(item);
  }

  /**
   A signed conversion of any type in any field is read back by kstrtoll as the value of its type that agrees with the
   argument, which is the argument itself if the type has it, if and only if no blank is in the field.
   */
  lemma {:induction false} SignedFormatReadsBack(item: Item)
    requires Proper(item) && item.Conv? && SignedConversion(item.c)
    ensures var x := Wrapped(item.arg.v, item.qual, true);
            SignedValue(Output(Source(item), Args(item)), 10) == (true, x)
            <==> Full(x, SpecOf(item)) && !(' ' in item.flags && '+' !in item.flags && x >= 0)
  {
    hide Output, NumberText, SignedValue, IsFlags, Full, Source, Args;
    OnePrinted(item);
    PrintedIs(item.arg.v, item.qual, item.c, SpecOf(item));
    SignedFieldReadsBack(Wrapped(item.arg.v, item.qual, true) % U64, SpecOf(item));
  }

  /** An unsigned one is read back in its own base if and only if no blank is in the field. */
  lemma {:induction false} UnsignedFormatReadsBack(item: Item)
    requires Proper(item) && item.Conv? && item.c in "uoxX"
    ensures var x, spec := Wrapped(item.arg.v, item.qual, false), SpecOf(item);
            x >= 0 && (ParseUnsigned(Unplus(Output(Source(item), Args(item))), spec.base) == Number(x) <==> Full(x, spec))
  {
    hide Output, NumberText, ParseUnsigned, IsFlags, Full, Source, Args;
    OnePrinted(item);
    PrintedIs(item.arg.v, item.qual, item.c, SpecOf(item));
    WrappedIs(item.arg.v, item.qual, false, 0);
    UnsignedFieldReadsBack(Wrapped(item.arg.v, item.qual, false), SpecOf(item));
  }

  /** Without width and precision the base can be detected: in decimal, and in hexadecimal and octal with '#'. */
  lemma {:induction false} BareFormatReadsBack(item: Item)
    requires Proper(item) && item.Conv? && IsNumber(item.c) && item.width.Unset? && item.precision.Unset?
    requires item.c in "oxX" ==> '#' in item.flags
    ensures var x, text := Wrapped(item.arg.v, item.qual, SignedConversion(item.c)), Output(Source(item), Args(item));
            if SignedConversion(item.c) then SignedValue(text, 0) == (true, x) <==> !(' ' in item.flags && '+' !in item.flags && x >= 0)
            else x >= 0 && ParseUnsigned(Unplus(text), 0) == Number(x)
  {
    hide Output, NumberText, ParseUnsigned, SignedValue, IsFlags, Source, Args, Wrapped;
    OnePrinted(item);
    var x, spec := Wrapped(item.arg.v, item.qual, SignedConversion(item.c)), SpecOf(item);
    WrappedIs(item.arg.v, item.qual, SignedConversion(item.c), 0);
    if SignedConversion(item.c) {
      assert x % U64 == if x < 0 then U64 + x else x;
      PrintedSignedReadsBack(x, spec, 0);
    } else {
      PrintedUnsignedReadsBack(x, spec);
    }
  }
}
