/**
 The integer parsers of lib/kstrtox.c.  A C string is the sequence of its characters before
 the terminating NUL; reading one past the end yields NUL.  The parsers report success by 0
 and failure by a negative code, and write their result only on success.
 */
module ParseInteger {
  import opened Digits
  import opened Arith

  const EINVAL := 22
  const ERANGE := 34
  const KSTRTOX_OVERFLOW := 0x8000_0000

  predicate CString(s: seq<char>) { '\0' !in s && |s| < 0x8000_0000 }

  function At(s: seq<char>, i: nat): char { if i < |s| then s[i] else '\0' }

  function From(s: seq<char>, i: nat): seq<char> { if i <= |s| then s[i..] else [] }

  /** _tolower(c), that is c | 0x20. */
  function Lower(c: char): nat {
    var x := c as nat;
    if x / 32 % 2 == 0 then x + 32 else x
  }

  const NO_DIGIT := 16

  /** The value of a character as a digit, or NO_DIGIT. */
  function DigitOf(c: char): nat {
    if '0' <= c <= '9' then c as nat - '0' as nat
    else if 'a' as nat <= Lower(c) <= 'f' as nat then Lower(c) - 'a' as nat + 10
    else NO_DIGIT
  }

  /** How many characters at the start of s are digits of the base. */
  function Lead(s: seq<char>, base: nat): (n: nat)
    ensures n <= |s|
    ensures forall i :: 0 <= i < n ==> DigitOf(s[i]) < base
    ensures n < |s| ==> DigitOf(s[n]) >= base
  {
    if s == [] || DigitOf(s[0]) >= base then 0 else 1 + Lead(s[1..], base)
  }

  function DigitsOf(s: seq<char>): (ds: seq<nat>)
    ensures |ds| == |s| && forall i :: 0 <= i < |s| ==> ds[i] == DigitOf(s[i])
  {
    seq(|s|, i requires 0 <= i < |s| => DigitOf(s[i]))
  }

  /** The mathematical value of the digits at the start of s. */
  function LeadValue(s: seq<char>, base: nat): nat { Value(DigitsOf(s[..Lead(s, base)]), base) }

  // ----- _parse_integer -----

  lemma FitsIff(res: nat, val: nat, base: nat)
    requires val < base
    ensures res > (U64 - 1 - val) / base <==> res * base + val >= U64
  {
    var q, r := (U64 - 1 - val) / base, (U64 - 1 - val) % base;
    assert U64 - 1 - val == q * base + r;
    if res > q { MulLe(q + 1, res, base); assert (q + 1) * base == q * base + base; } else { MulLe(res, q, base); }
  }

  /** Wrapping at each step wraps the whole value. */
  lemma WrapStep(v: nat, base: nat, val: nat)
    ensures (v % U64 * base + val) % U64 == (v * base + val) % U64
  {
    var q, r := v / U64, v % U64;
    assert v * base + val == U64 * (q * base) + (r * base + val) by {
      assert v == U64 * q + r;
      assert (U64 * q) * base == U64 * (q * base);
      assert (U64 * q + r) * base == (U64 * q) * base + r * base;
    }
    ModAdd(q * base, r * base + val);
  }

  lemma ModAdd(k: nat, x: nat)
    ensures (U64 * k + x) % U64 == x % U64
  {
    var q, r := x / U64, x % U64;
    assert U64 * k + x == U64 * (k + q) + r;
  }

  lemma ValueStep(s: seq<char>, k: nat, base: nat)
    requires k < |s|
    ensures Value(DigitsOf(s[..k + 1]), base) == Value(DigitsOf(s[..k]), base) * base + DigitOf(s[k])
  {
    var ds := DigitsOf(s[..k + 1]);
    assert ds[..k] == DigitsOf(s[..k]);
  }

  /** One digit: the delayed test together with what happened before tells whether the value fits. */
  lemma DigitStep(v: nat, res: nat, base: nat, val: nat)
    requires val < base <= 16 && res == v % U64
    ensures v * base + val >= U64 <==> v >= U64 || (res >= 0x1000_0000_0000_0000 && res > (U64 - 1 - val) / base)
    ensures (res * base + val) % U64 == (v * base + val) % U64
  {
    WrapStep(v, base, val);
    MulLe(1, base, v);
    if v < U64 {
      FitsIff(res, val, base);
      if res < 0x1000_0000_0000_0000 { MulLe(base, 16, res); }
    }
  }

  /**
   _parse_integer: consumes the leading digits; the overflow bit is set iff their value does
   not fit into 64 bits, although it is looked for only once the top four bits are in use.
   */
  method ParseDigits(s: seq<char>, base: nat) returns (rv: nat, res: nat)
    requires CString(s) && 2 <= base <= 16
    ensures rv == Lead(s, base) + if LeadValue(s, base) < U64 then 0 else KSTRTOX_OVERFLOW
    ensures res == LeadValue(s, base) % U64
  {
    hide Value, DigitsOf, Lead, Lower;
    var overflow := false;
    res := 0;
    rv := 0;
    assert DigitsOf(s[..0]) == [] && Value([], base) == 0 by { ValueEmpty(s, base); }
    while rv < |s|
      invariant rv <= |s| && res < U64
      invariant forall i :: 0 <= i < rv ==> DigitOf(s[i]) < base
      invariant res == Value(DigitsOf(s[..rv]), base) % U64
      invariant overflow <==> Value(DigitsOf(s[..rv]), base) >= U64
    {
      var val := DigitOf(s[rv]);
      if val >= base { break; }
      ghost var v := Value(DigitsOf(s[..rv]), base);
      ValueStep(s, rv, base);
      DigitStep(v, res, base, val);
      if res >= 0x1000_0000_0000_0000 {
        if res > (U64 - 1 - val) / base { overflow := true; }
      }
      res := (res * base + val) % U64;
      rv := rv + 1;
    }
    LeadIs(s, base, rv);
    if overflow { rv := rv + KSTRTOX_OVERFLOW; }
  }

  lemma ValueEmpty(s: seq<char>, base: nat)
    ensures DigitsOf(s[..0]) == [] && Value([], base) == 0
  {
  }

  lemma {:induction false} LeadIs(s: seq<char>, base: nat, n: nat)
    requires n <= |s| && (forall i :: 0 <= i < n ==> DigitOf(s[i]) < base) && (n < |s| ==> DigitOf(s[n]) >= base)
    ensures Lead(s, base) == n
  {
    if n > 0 { LeadIs(s[1..], base, n - 1); }
  }

  // ----- kstrtoull and kstrtoll -----

  /** _parse_integer_fixup_radix: the base to use and how many characters of prefix to skip. */
  function FixupBase(s: seq<char>, base: nat): nat {
    if base != 0 then base
    else if At(s, 0) != '0' then 10
    else if Lower(At(s, 1)) == 'x' as nat && DigitOf(At(s, 2)) < 16 then 16
    else 8
  }

  function FixupSkip(s: seq<char>, base: nat): nat {
    if FixupBase(s, base) == 16 && At(s, 0) == '0' && Lower(At(s, 1)) == 'x' as nat then 2 else 0
  }

  /** What parsing s comes to: a value, or the error code. */
  datatype Outcome = Number(v: nat) | Error(rc: int)

  /** Digits of the base, at least one, a value that fits, and at most one newline behind them. */
  function Parse(s: seq<char>, base: nat): Outcome {
    var n := Lead(s, base);
    if LeadValue(s, base) >= U64 then Error(-ERANGE)
    else if n == 0 then Error(-EINVAL)
    else if s[n..] == [] || s[n..] == "\n" then Number(LeadValue(s, base))
    else Error(-EINVAL)
  }

  function ParseUnsigned(s: seq<char>, base: nat): Outcome {
    Parse(From(s, FixupSkip(s, base)), FixupBase(s, base))
  }

  lemma FixupInString(s: seq<char>, base: nat)
    ensures FixupSkip(s, base) <= |s|
  {
  }

  /** _kstrtoull */
  method KStrToUllNoSign(s: seq<char>, base: nat, res0: nat) returns (rc: int, res: nat)
    requires CString(s) && (base == 0 || 2 <= base <= 16)
    ensures match ParseUnsigned(s, base)
            case Number(v) => rc == 0 && res == v
            case Error(e) => rc == e && res == res0
  {
    hide LeadValue, Lead, Lower, DigitOf;
    FixupInString(s, base);
    var radix := FixupBase(s, base);
    var t := s[FixupSkip(s, base)..];
    var rv, v := ParseDigits(t, radix);
    if rv >= KSTRTOX_OVERFLOW { return -ERANGE, res0; }
    if rv == 0 { return -EINVAL, res0; }
    var i := rv;
    if At(t, i) == '\n' { i := i + 1; }
    if At(t, i) != '\0' { return -EINVAL, res0; }
    return 0, v;
  }

  function Unplus(s: seq<char>): seq<char> { if At(s, 0) == '+' then s[1..] else s }

  method KStrToUll(s: seq<char>, base: nat, res0: nat) returns (rc: int, res: nat)
    requires CString(s) && (base == 0 || 2 <= base <= 16)
    ensures match ParseUnsigned(Unplus(s), base)
            case Number(v) => rc == 0 && res == v
            case Error(e) => rc == e && res == res0
  {
    rc, res := KStrToUllNoSign(Unplus(s), base, res0);
  }

  /** A 64-bit word read as a signed number. */
  function Signed(w: nat): int { if w < U64 / 2 then w else w - U64 }

  /** The number a string denotes to kstrtoll: 0..2^63-1, or after '-' the magnitudes 1..2^63. */
  function SignedValue(s: seq<char>, base: nat): (r: (bool, int)) {
    if At(s, 0) == '-' then
      match ParseUnsigned(s[1..], base)
      case Number(v) => if 1 <= v <= U64 / 2 then (true, 0 - v) else (false, -ERANGE)
      case Error(e) => (false, e)
    else
      match ParseUnsigned(Unplus(s), base)
      case Number(v) => if v < U64 / 2 then (true, v) else (false, -ERANGE)
      case Error(e) => (false, e)
  }

  /** kstrtoll: the signed test is made on the wrapped 64-bit word. */
  method KStrToLl(s: seq<char>, base: nat, res0: int) returns (rc: int, res: int)
    requires CString(s) && (base == 0 || 2 <= base <= 16)
    ensures var r := SignedValue(s, base); if r.0 then rc == 0 && res == r.1 else rc == r.1 && res == res0
  {
    hide ParseUnsigned, Unplus;
    var tmp: nat;
    ParsedFits(Unplus(s), base);
    if At(s, 0) == '-' {
      ParsedFits(s[1..], base);
      rc, tmp := KStrToUllNoSign(s[1..], base, 0);
      if rc < 0 { return rc, res0; }
      var neg := (U64 - tmp) % U64;
      Negated(tmp);
      if Signed(neg) >= 0 { return -ERANGE, res0; }
      return 0, Signed(neg);
    } else {
      rc, tmp := KStrToUll(s, base, 0);
      if rc < 0 { return rc, res0; }
      if Signed(tmp) < 0 { return -ERANGE, res0; }
      return 0, Signed(tmp);
    }
  }

  lemma Negated(v: nat)
    requires v < U64
    ensures var neg := (U64 - v) % U64;
            (Signed(neg) < 0 <==> 1 <= v <= U64 / 2) && (Signed(neg) < 0 ==> Signed(neg) == 0 - v)
  {
  }

  lemma ParsedFits(s: seq<char>, base: nat)
    ensures match ParseUnsigned(s, base) case Number(v) => v < U64 case Error(e) => e < 0
  {
  }

  // ----- The narrower types -----

  /** The number of values of an 8, 16 or 32-bit type. */
  function Range(bits: nat): nat { if bits == 8 then 0x100 else if bits == 16 then 0x1_0000 else U32 }

  /** What parsing into an unsigned type of that width comes to. */
  function NarrowUnsigned(s: seq<char>, base: nat, bits: nat): Outcome {
    match ParseUnsigned(Unplus(s), base)
    case Number(v) => if v < Range(bits) then Number(v) else Error(-ERANGE)
    case Error(e) => Error(e)
  }

  /** kstrtou8, kstrtou16, kstrtouint: the value must survive the cast. */
  method KStrToUnsigned(s: seq<char>, base: nat, bits: nat, res0: nat) returns (rc: int, res: nat)
    requires CString(s) && (base == 0 || 2 <= base <= 16)
    ensures match NarrowUnsigned(s, base, bits)
            case Number(v) => rc == 0 && res == v
            case Error(e) => rc == e && res == res0
  {
    hide ParseUnsigned;
    ParsedFits(Unplus(s), base);
    var tmp: nat;
    rc, tmp := KStrToUll(s, base, 0);
    if rc < 0 { return rc, res0; }
    if tmp != tmp % Range(bits) { return -ERANGE, res0; }
    return 0, tmp;
  }

  /** Conversion of a 64-bit number to a signed type. */
  function Cast(x: int, bits: nat): int { (x + Range(bits) / 2) % Range(bits) - Range(bits) / 2 }

  /** What parsing into a signed type of that width comes to. */
  function NarrowSigned(s: seq<char>, base: nat, bits: nat): (bool, int) {
    var r := SignedValue(s, base);
    if r.0 && !(-(Range(bits) / 2) <= r.1 < Range(bits) / 2) then (false, -ERANGE) else r
  }

  /** kstrtos8, kstrtos16, kstrtoint. */
  method KStrToSigned(s: seq<char>, base: nat, bits: nat, res0: int) returns (rc: int, res: int)
    requires CString(s) && (base == 0 || 2 <= base <= 16)
    ensures var r := NarrowSigned(s, base, bits); if r.0 then rc == 0 && res == r.1 else rc == r.1 && res == res0
  {
    hide ParseUnsigned;
    ParsedFits(Unplus(s), base);
    if At(s, 0) == '-' { ParsedFits(s[1..], base); }
    var tmp: int;
    rc, tmp := KStrToLl(s, base, 0);
    if rc < 0 { return rc, res0; }
    if tmp != Cast(tmp, bits) { return -ERANGE, res0; }
    return 0, tmp;
  }

  // ----- Which strings are numbers -----

  /** A non-empty string of digits whose value is below 2^64. */
  predicate Numeral(t: seq<char>, base: nat) {
    t != [] && (forall i :: 0 <= i < |t| ==> DigitOf(t[i]) < base) && Value(DigitsOf(t), base) < U64
  }

  /** The sixteen digits in either case are the only characters with a digit value. */
  lemma DigitTable(i: nat)
    requires i < 16
    ensures DigitOf("0123456789abcdef"[i]) == i && DigitOf("0123456789ABCDEF"[i]) == i
  {
  }

  lemma OnlyDigits(c: char)
    ensures DigitOf(c) < 16 ==> c == "0123456789abcdef"[DigitOf(c)] || c == "0123456789ABCDEF"[DigitOf(c)]
  {
    if DigitOf(c) < 10 { DecimalDigit(DigitOf(c)); } else if DigitOf(c) < 16 { LetterDigit(DigitOf(c) - 10); }
  }

  lemma DecimalDigit(d: nat)
    requires d < 10
    ensures "0123456789abcdef"[d] == '0' + d as char
  {
  }

  lemma LetterDigit(d: nat)
    requires d < 6
    ensures "0123456789abcdef"[d + 10] == 'a' + d as char && "0123456789ABCDEF"[d + 10] == 'A' + d as char
  {
  }

  /**
   The outcome for digits with anything but a further digit behind them: a value of 2^64 or more is out of range
   whatever follows, no digits or anything but one newline behind a smaller value is invalid.
   */
  lemma ParseOutcome(t: seq<char>, rest: seq<char>, base: nat)
    requires base <= 16 && (forall i :: 0 <= i < |t| ==> DigitOf(t[i]) < base) && (rest != [] ==> DigitOf(rest[0]) >= base)
    ensures var v := Value(DigitsOf(t), base);
            Parse(t + rest, base) == if v >= 0x1_0000_0000_0000_0000 then Error(-34)
                                     else if t != [] && (rest == "" || rest == "\n") then Number(v)
                                     else Error(-22)
  {
    hide Value;
    var s := t + rest;
    LeadIs(s, base, |t|);
    assert s[..|t|] == t && s[|t|..] == rest;
    if t == [] { ValueEmpty(t, base); }
  }

  lemma NumeralsParse(t: seq<char>, base: nat, newline: bool)
    requires Numeral(t, base) && base <= 16
    ensures Parse(if newline then t + "\n" else t, base) == Number(Value(DigitsOf(t), base))
  {
    var s := if newline then t + "\n" else t;
    LeadIs(s, base, |t|);
    assert s[..|t|] == t;
  }

  lemma OnlyNumeralsParse(s: seq<char>, base: nat) returns (t: seq<char>)
    requires base <= 16 && Parse(s, base).Number?
    ensures Numeral(t, base) && Parse(s, base).v == Value(DigitsOf(t), base) && (s == t || s == t + "\n")
  {
    t := s[..Lead(s, base)];
    assert s == t + s[Lead(s, base)..];
  }
}
