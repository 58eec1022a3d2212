/**
 vsnprintf of lib/vsprintf.c and kvasprintf of lib/kasprintf.c, for literal text, %c, %s, %%,
 %n and the integer conversions.  Arguments are a sequence; a missing or mistyped one, which C
 leaves undefined, reads as 0 or the empty string.  The text of %p is taken from its argument.
 */
module Printf {
  import opened Digits
  import opened FormatNumber
  import opened ParseInteger

  datatype Arg = IntArg(v: int) | StrArg(s: seq<char>) | NullStr

  function IntOf(args: seq<Arg>): int { if args != [] && args[0].IntArg? then args[0].v else 0 }

  /** A null pointer prints as "(null)". */
  function StrOf(args: seq<Arg>): seq<char> {
    if args == [] then "" else if args[0].NullStr? then "(null)" else if args[0].StrArg? then args[0].s else ""
  }

  function Rest(args: seq<Arg>): seq<Arg> { if args == [] then [] else args[1..] }

  // ----- format_decode -----

  /** The length of the text before the next '%'. */
  function Literal(fmt: seq<char>): (n: nat)
    ensures n <= |fmt| && (forall i :: 0 <= i < n ==> fmt[i] != '%') && (n < |fmt| ==> fmt[n] == '%')
  {
    if fmt == [] || fmt[0] == '%' then 0 else 1 + Literal(fmt[1..])
  }

  function SetFlag(spec: Spec, c: char): (r: Spec)
    ensures r.ty == spec.ty
  {
    match c
    case '-' => spec.(left := true)
    case '+' => spec.(plus := true)
    case ' ' => spec.(space := true)
    case '#' => spec.(special := true)
    case _ => spec.(zeropad := true)
  }

  predicate IsFlag(c: char) { c in "-+ #0" }

  /** The flags at position i: where they end, and what they set. */
  function Flags(fmt: seq<char>, i: nat, spec: Spec): (r: (nat, Spec))
    requires i <= |fmt|
    ensures i <= r.0 <= |fmt| && r.1.ty == spec.ty
    decreases |fmt| - i
  {
    if i < |fmt| && IsFlag(fmt[i]) then Flags(fmt, i + 1, SetFlag(spec, fmt[i])) else (i, spec)
  }

  predicate IsDigit(c: char) { '0' <= c <= '9' }

  /** skip_atoi at position i. */
  function Atoi(fmt: seq<char>, i: nat, acc: nat): (r: (nat, nat))
    requires i <= |fmt|
    ensures i <= r.0 <= |fmt| && (i < |fmt| && IsDigit(fmt[i]) ==> i < r.0)
    decreases |fmt| - i
  {
    if i < |fmt| && IsDigit(fmt[i]) then Atoi(fmt, i + 1, acc * 10 + (fmt[i] as nat - '0' as nat)) else (i, acc)
  }

  /** Decodes one token of the format: how many characters it takes, and the specification. */
  function Decode(fmt: seq<char>, spec: Spec): (r: (nat, Spec))
    ensures r.0 <= |fmt|
    ensures fmt != [] && !Pending(spec) ==> r.0 > 0
    ensures Pending(spec) && r.0 == 0 ==> !Pending(r.1)
    ensures Pending(spec) && Pending(r.1) ==> r.0 > 0
    ensures r.1.ty.Pointer? ==> r.0 < |fmt| && fmt[r.0] == 'p'
    ensures r.1.ty.Integer? ==> PrintBase(r.1.base)
  {
    if spec.ty == Width then
      var s := if spec.width < 0 then spec.(width := -spec.width, left := true) else spec;
      DecodePrecision(fmt, 0, s.(ty := None))
    else if spec.ty == Precision then
      DecodeConversion(fmt, 0, spec.(precision := if spec.precision < 0 then 0 else spec.precision, ty := None))
    else
      var n := Literal(fmt);
      if n != 0 || fmt == [] then (n, spec.(ty := None))
      else
        var (i, s) := Flags(fmt, 1, Spec(None, false, false, false, false, false, false, false, spec.base, -1, spec.precision));
        DecodeWidth(fmt, i, s)
  }

  function DecodeWidth(fmt: seq<char>, i: nat, spec: Spec): (r: (nat, Spec))
    requires i <= |fmt| && spec.ty == None
    ensures i <= r.0 <= |fmt| && (Pending(r.1) ==> i < r.0)
    ensures r.1.ty.Pointer? ==> r.0 < |fmt| && fmt[r.0] == 'p'
    ensures r.1.ty.Integer? ==> PrintBase(r.1.base)
  {
    if At(fmt, i) == '*' then (i + 1, spec.(ty := Width))
    else
      var (j, width) := Atoi(fmt, i, 0);
      DecodePrecision(fmt, j, if j > i then spec.(width := width) else spec)
  }

  /** A field width or precision is to be taken from the arguments. */
  predicate Pending(spec: Spec) { spec.ty == Width || spec.ty == Precision }

  function DecodePrecision(fmt: seq<char>, i: nat, spec: Spec): (r: (nat, Spec))
    requires i <= |fmt| && spec.ty == None
    ensures i <= r.0 <= |fmt| && (Pending(r.1) ==> i < r.0 && r.1.ty == Precision)
    ensures r.1.ty.Pointer? ==> r.0 < |fmt| && fmt[r.0] == 'p'
    ensures r.1.ty.Integer? ==> PrintBase(r.1.base)
  {
    var s := spec.(precision := -1);
    if At(fmt, i) != '.' then DecodeConversion(fmt, i, s)
    else if At(fmt, i + 1) == '*' then (i + 2, s.(ty := Precision))
    else
      var (j, p) := Atoi(fmt, i + 1, 0);
      DecodeConversion(fmt, j, if j > i + 1 then s.(precision := p) else s)
  }

  datatype Qualifier = NoQual | QH | Qh | QL | Ql | Qz | Qt

  /** The qualifier at position i and where it ends; "ll" and "hh" are L and H. */
  function DecodeQualifier(fmt: seq<char>, i: nat): (r: (nat, Qualifier))
    requires i <= |fmt|
    ensures i <= r.0 <= |fmt|
  {
    var c := At(fmt, i);
    if c == 'h' then (if At(fmt, i + 1) == 'h' then (i + 2, QH) else (i + 1, Qh))
    else if c == 'l' then (if At(fmt, i + 1) == 'l' then (i + 2, QL) else (i + 1, Ql))
    else if c == 'L' then (i + 1, QL)
    else if c == 'z' || c == 'Z' then (i + 1, Qz)
    else if c == 't' then (i + 1, Qt)
    else (i, NoQual)
  }

  function IntegerKind(q: Qualifier, sign: bool): Kind {
    match q
    case QL => LongLong
    case Ql => if sign then Long else ULong
    case Qz => SizeT
    case Qt => PtrDiff
    case QH => if sign then Byte else UByte
    case Qh => if sign then Short else UShort
    case NoQual => if sign then Int else UInt
  }

  /** The conversion character c: whether it is consumed, and the specification it makes. */
  function Convert(c: char, q: Qualifier, s: Spec): (r: (nat, Spec))
    requires s.ty == None && s.base == 10
    ensures r.0 <= 1 && (r.0 == 1 ==> c != '\0') && !Pending(r.1) && PrintBase(r.1.base)
    ensures r.1.ty.Pointer? ==> r.0 == 0 && c == 'p'
  {
    if c == 'c' then (1, s.(ty := Char))
    else if c == 's' then (1, s.(ty := Str))
    else if c == 'p' then (0, s.(ty := Pointer))
    else if c == 'n' then (1, s.(ty := NrChars))
    else if c == '%' then (1, s.(ty := Percent))
    else if c == 'o' then (1, s.(base := 8, ty := Integer(IntegerKind(q, s.sign))))
    else if c == 'x' then (1, s.(base := 16, small := true, ty := Integer(IntegerKind(q, s.sign))))
    else if c == 'X' then (1, s.(base := 16, ty := Integer(IntegerKind(q, s.sign))))
    else if c == 'd' || c == 'i' then (1, s.(sign := true, ty := Integer(IntegerKind(q, true))))
    else if c == 'u' then (1, s.(ty := Integer(IntegerKind(q, s.sign))))
    else (0, s.(ty := Invalid))
  }

  function DecodeConversion(fmt: seq<char>, i0: nat, spec: Spec): (r: (nat, Spec))
    requires i0 <= |fmt| && spec.ty == None
    ensures i0 <= r.0 <= |fmt| && !Pending(r.1)
    ensures r.1.ty.Pointer? ==> r.0 < |fmt| && fmt[r.0] == 'p'
    ensures r.1.ty.Integer? ==> PrintBase(r.1.base)
  {
    var (i, q) := DecodeQualifier(fmt, i0);
    var (k, s) := Convert(At(fmt, i), q, spec.(base := 10));
    (i + k, s)
  }

  // ----- What a format prints -----

  function CharText(c: int, spec: Spec): seq<char> {
    var pad := Repeat(' ', spec.width - 1);
    (if spec.left then [] else pad) + [(c % 256) as char] + (if spec.left then pad else [])
  }

  /** At most `precision` characters of s, all of them if it is negative. */
  function Shown(s: seq<char>, spec: Spec): seq<char> {
    if 0 <= spec.precision < |s| then s[..spec.precision] else s
  }

  function StrText(s: seq<char>, spec: Spec): seq<char> {
    var shown := Shown(s, spec);
    var pad := Repeat(' ', spec.width - |shown|);
    (if spec.left then [] else pad) + shown + (if spec.left then pad else [])
  }

  /** The 64-bit word that an integer argument of the given type becomes. */
  function Word(v: int, kind: Kind): (n: nat)
    ensures n < U64
  {
    match kind
    case UByte => v % 0x100
    case Byte => Cast(v, 8) % U64
    case UShort => v % 0x1_0000
    case Short => Cast(v, 16) % U64
    case UInt => v % U32
    case Int => Cast(v, 32) % U64
    case _ => v % U64
  }

  function SkipAlnum(fmt: seq<char>): (n: nat)
    ensures n <= |fmt|
    ensures fmt != [] && IsAlnum(fmt[0]) ==> n > 0
  {
    if fmt != [] && IsAlnum(fmt[0]) then 1 + SkipAlnum(fmt[1..]) else 0
  }

  predicate IsAlnum(c: char) { '0' <= c <= '9' || 'a' <= c <= 'z' || 'A' <= c <= 'Z' }

  /** One conversion: its text, the arguments left, the specification after it, and the format characters it takes. */
  datatype Token = Token(text: seq<char>, args: seq<Arg>, spec: Spec, read: nat)

  function NextToken(fmt: seq<char>, spec: Spec, args: seq<Arg>): (t: Token)
    requires fmt != []
    ensures t.read <= |fmt| && (t.read > 0 || (Pending(spec) && !Pending(t.spec)))
  {
    var (read, s) := Decode(fmt, spec);
    match s.ty
    case None => Token(fmt[..read], args, s, read)
    case Width => Token([], Rest(args), s.(width := IntOf(args)), read)
    case Precision => Token([], Rest(args), s.(precision := IntOf(args)), read)
    case Char => Token(CharText(IntOf(args), s), Rest(args), s, read)
    case Str => Token(StrText(StrOf(args), s), Rest(args), s, read)
    case Pointer => Token(StrOf(args), Rest(args), s, read + SkipAlnum(fmt[read..]))
    case Percent => Token("%", args, s, read)
    case Invalid => Token("%", args, s, read)
    case NrChars => Token([], Rest(args), s, read)
    case Integer(kind) => Token(NumberText(Word(IntOf(args), kind), s), Rest(args), s, read)
  }

  /** The full output: it terminates although a token may take no characters. */
  function Render(fmt: seq<char>, spec: Spec, args: seq<Arg>): seq<char>
    decreases |fmt|, Pending(spec)
  {
    if fmt == [] then [] else
    var t := NextToken(fmt, spec, args);
    t.text + Render(fmt[t.read..], t.spec, t.args)
  }

  const NO_SPEC := Spec(None, false, false, false, false, false, false, false, 0, 0, 0)

  /** What printf prints for a format and its arguments. */
  function Output(fmt: seq<char>, args: seq<Arg>): seq<char> { Render(fmt, NO_SPEC, args) }

  // ----- vsnprintf -----

  /** string(): the padding loop leaves the width below the length, so at most one of them prints. */
  method PutString(w: Writer, s: seq<char>, spec: Spec)
    requires w.Ok()
    modifies w, w.buf
    ensures w.Ok() && w.out == old(w.out) + StrText(s, spec)
  {
    hide Repeat, Writer.Ok;
    var len := |Shown(s, spec)|;
    var width := spec.width;
    NothingToPad(width - len);
    if !spec.left {
      w.Fill(' ', width - len);
      width := if len < width then len - 1 else width - 1;
    }
    w.PutAll(s[..len]);
    NothingToPad(width - len);
    w.Fill(' ', width - len);
  }

  method PutChar(w: Writer, c: int, spec: Spec)
    requires w.Ok()
    modifies w, w.buf
    ensures w.Ok() && w.out == old(w.out) + CharText(c, spec)
  {
    hide Repeat, Writer.Ok;
    var width := spec.width - 1;
    NothingToPad(width);
    if !spec.left {
      w.Fill(' ', width);
      width := -1;
    }
    w.Put((c % 256) as char);
    w.Fill(' ', width);
  }

  /** One turn of the loop of vsnprintf. */
  method PutToken(w: Writer, fmt: seq<char>, spec0: Spec, args0: seq<Arg>)
    returns (spec: Spec, args: seq<Arg>, read: nat)
    requires w.Ok() && fmt != []
    modifies w, w.buf
    ensures w.Ok()
    ensures var t := NextToken(fmt, spec0, args0);
            w.out == old(w.out) + t.text && spec == t.spec && args == t.args && read == t.read
  {
    hide Decode, NumberText, StrText, CharText, Word, Writer.Ok;
    args := args0;
    var d := Decode(fmt, spec0);
    read, spec := d.0, d.1;
    match spec.ty {
      case None => w.PutAll(fmt[..read]);
      case Width => spec, args := spec.(width := IntOf(args)), Rest(args);
      case Precision => spec, args := spec.(precision := IntOf(args)), Rest(args);
      case Char =>
        PutChar(w, IntOf(args), spec);
        args := Rest(args);
      case Str =>
        PutString(w, StrOf(args), spec);
        args := Rest(args);
      case Pointer =>
        w.PutAll(StrOf(args));
        args := Rest(args);
        read := read + SkipAlnum(fmt[read..]);
      case Percent => w.Put('%');
      case Invalid => w.Put('%');
      case NrChars => args := Rest(args);
      case Integer(kind) =>
        FormatNumber.Number(w, Word(IntOf(args), kind), spec);
        args := Rest(args);
    }
  }

  /** A length as the int that vsnprintf returns. */
  function AsInt(n: nat): int { if n % U32 < U32 / 2 then n % U32 else n % U32 - U32 }

  /**
   vsnprintf: the return value is the length of the full output, as an int, whatever the size; the
   buffer holds its first min(len, size - 1) characters and a NUL, and nothing past `size`
   is written.  A size that is negative as an int is rejected.
   */
  method Vsnprintf(buf: array<char>, size: nat, fmt0: seq<char>, args0: seq<Arg>) returns (n: int)
    requires size <= buf.Length
    modifies buf
    ensures size % U32 >= U32 / 2 ==> n == 0 && buf[..] == old(buf[..])
    ensures size % U32 < U32 / 2 ==> n == AsInt(|Output(fmt0, args0)|) && buf[..] == Stored(Output(fmt0, args0), size, old(buf[..]))
  {
    hide Render, NextToken, Stored;
    if size % U32 >= U32 / 2 { return 0; }
    var w := new Writer(buf, size);
    var fmt, spec, args := fmt0, NO_SPEC, args0;
    while fmt != []
      invariant w.Ok() && w.buf == buf && w.end == size && fresh(w) && w.initial == old(buf[..])
      invariant w.out + Render(fmt, spec, args) == Output(fmt0, args0)
      decreases |fmt|, Pending(spec)
    {
      RenderStep(fmt, spec, args);
      var read;
      spec, args, read := PutToken(w, fmt, spec, args);
      fmt := fmt[read..];
    }
    RenderEnd(spec, args);
    assert w.out == Output(fmt0, args0);
    if size > 0 {
      if w.pos < size { buf[w.pos] := '\0'; } else { buf[size - 1] := '\0'; }
    }
    n := AsInt(w.pos);
    StoredIs(buf[..], w.out, size, old(buf[..]));
  }

  /** The buffer after printing `text` with the given size. */
  function Stored(text: seq<char>, size: nat, before: seq<char>): seq<char>
    requires size <= |before|
  {
    if size == 0 then before
    else if |text| < size then text + ['\0'] + before[|text| + 1..]
    else text[..size - 1] + ['\0'] + before[size..]
  }

  /** Position by position: the text up to the NUL, which is the last one of the given size at most, and then what was there. */
  lemma StoredAt(text: seq<char>, size: nat, before: seq<char>, i: nat)
    requires 0 < size <= |before| && i < |before|
    ensures var nul := if |text| < size then |text| else size - 1;
            && |Stored(text, size, before)| == |before|
            && Stored(text, size, before)[i] == if i < nul then text[i] else if i == nul then '\0' else before[i]
  {
  }

  /** The returned length is the length of the output unless that has 2^31 characters or more. */
  lemma LengthReturned(n: nat)
    ensures AsInt(n) == n <==> n < 2147483648
  {
  }

  lemma {:induction false} StoredIs(after: seq<char>, text: seq<char>, size: nat, before: seq<char>)
    requires |after| == |before| && size <= |before|
    requires var m := if |text| < size then |text| else size - 1;
             forall i :: 0 <= i < |after| ==>
               after[i] == if size > 0 && i == m then '\0' else if i < |text| && i < size then text[i] else before[i]
    ensures after == Stored(text, size, before)
  {
  }

  lemma {:induction false} RenderStep(fmt: seq<char>, spec: Spec, args: seq<Arg>)
    requires fmt != []
    ensures var t := NextToken(fmt, spec, args);
            Render(fmt, spec, args) == t.text + Render(fmt[t.read..], t.spec, t.args)
  {
  }

  lemma {:induction false} RenderEnd(spec: Spec, args: seq<Arg>)
    ensures Render([], spec, args) == []
  {
  }

  /**
   kvasprintf, which gives NULL when there is no memory: the first pass measures and the second fits exactly, unless
   the length does not fit an int.
   */
  method KvAsprintf(fmt: seq<char>, args: seq<Arg>, memory: bool) returns (p: array?<char>)
    ensures p == null <==> !memory
    ensures p != null ==> p.Length == AllocatedFor(|Output(fmt, args)|)
    ensures p != null && |Output(fmt, args)| + 1 < U32 / 2 ==> p[..] == Output(fmt, args) + ['\0']
  {
    hide Render, Output, AsInt;
    var none := new char[0];
    var n := Vsnprintf(none, 0, fmt, args);
    var len := n % U32;
    AsIntWraps(|Output(fmt, args)|);
    if !memory { return null; }
    var q := new char[(len + 1) % U32];
    var again := Vsnprintf(q, (len + 1) % U32, fmt, args);
    p := q;
  }

  lemma AsIntWraps(n: nat)
    ensures AsInt(n) % U32 == n % U32
  {
  }

  /** len + 1 in 32-bit arithmetic. */
  function AllocatedFor(n: nat): nat { (n % U32 + 1) % U32 }
}
