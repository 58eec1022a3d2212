/**
 The Internet checksum with explicit add and add-with-carry registers, against the one's-complement
 sum of section 1 of RFC 1071.
 */
module Checksum {

  type U16 = x: int | 0 <= x < 0x1_0000
  type U32 = x: int | 0 <= x < 0x1_0000_0000

  const M16 := 0xffff
  const M32 := 0xffff_ffff

  // ----- One's-complement arithmetic -----

  /** Addition with the carry brought around to the low end. */
  function Plus(a: U16, b: U16): U16 {
    if a + b <= M16 then a + b else a + b - M16
  }

  function OnesSum(ws: seq<U16>): U16 {
    if ws == [] then 0 else Plus(ws[0], OnesSum(ws[1..]))
  }

  /** Section 1 of RFC 1071: the complement of the one's-complement sum. */
  function InternetChecksum(ws: seq<U16>): U16 { M16 - OnesSum(ws) }

  function Total(ws: seq<nat>): nat {
    if ws == [] then 0 else ws[0] + Total(ws[1..])
  }

  /** n brought into 0..m by end-around subtraction; zero stays apart from m. */
  ghost function Fold(n: nat, m: nat): (r: nat)
    requires m > 0
    ensures r <= m && (r == 0 <==> n == 0)
  {
    if n <= m then n else Fold(n - m, m)
  }

  lemma {:induction false} FoldMultiple(n: nat, k: nat, m: nat)
    requires m > 0 && n > 0
    ensures k * m >= 0 && Fold(n + k * m, m) == Fold(n, m)
  {
    if k == 0 {
    } else {
      FoldMultiple(n, k - 1, m);
      assert k * m == (k - 1) * m + m;
    }
  }

  lemma {:induction false} FoldAdd(a: nat, b: nat, m: nat)
    requires m > 0
    ensures Fold(a + b, m) == Fold(Fold(a, m) + b, m)
  {
    if a <= m {
    } else {
      FoldAdd(a - m, b, m);
    }
  }

  lemma {:induction false} TotalConcat(a: seq<nat>, b: seq<nat>)
    ensures Total(a + b) == Total(a) + Total(b)
  {
    if a == [] {
      assert a + b == b;
    } else {
      TotalConcat(a[1..], b);
      assert (a + b)[1..] == a[1..] + b;
    }
  }

  /** The order of the additions does not matter: only the total does. */
  lemma {:induction false} OnesSumIsFold(ws: seq<U16>)
    ensures OnesSum(ws) == Fold(Total(ws), M16)
  {
    if ws == [] {
    } else {
      OnesSumIsFold(ws[1..]);
      FoldAdd(Total(ws[1..]), ws[0], M16);
    }
  }

  // ----- Registers -----

  datatype Reg = Reg(sum: U32, carry: bool)

  function Bit(b: bool): U16 { if b then 1 else 0 }

  /** adcl; addl is the same with the carry clear. */
  function AddCarry(reg: Reg, b: U32): (r: Reg)
    ensures r.sum + Bit(r.carry) * 0x1_0000_0000 == reg.sum + b + Bit(reg.carry)
  {
    var t := reg.sum + b + Bit(reg.carry);
    if t <= M32 then Reg(t, false) else Reg(t - 0x1_0000_0000, true)
  }

  /**
   A register with its carry stands for the total t.  The carry is never set together with the
   all-ones register, so adding it in at last cannot carry again.
   */
  ghost predicate Holds(reg: Reg, t: nat) {
    (reg.carry ==> reg.sum < M32) && reg.sum + Bit(reg.carry) == Fold(t, M32)
  }

  lemma AddHolds(reg: Reg, t: nat, b: U32)
    requires Holds(reg, t)
    ensures Holds(AddCarry(reg, b), t + b)
  {
    FoldAdd(t, b, M32);
  }

  /** Adding in the last carry cannot carry, and leaves the folded total. */
  lemma LastCarry(reg: Reg, t: nat)
    requires Holds(reg, t)
    ensures AddCarry(reg, 0) == Reg(Fold(t, M32), false)
  {
  }

  function Low(w: U32): U16 { w % 0x1_0000 }
  function High(w: U32): U16 { w / 0x1_0000 }

  function Join(low: U16, high: U16): (w: U32)
    ensures Low(w) == low && High(w) == high
  {
    low + high * 0x1_0000
  }

  /** The 16-bit words of memory read as 32-bit words, low half first. */
  function Halves(ws: seq<U32>): (hs: seq<U16>)
    ensures |hs| == 2 * |ws|
  {
    if ws == [] then [] else [Low(ws[0]), High(ws[0])] + Halves(ws[1..])
  }

  lemma {:induction false} HalvesAt(ws: seq<U32>, i: nat)
    requires i < |ws|
    ensures Halves(ws)[2 * i] == Low(ws[i]) && Halves(ws)[2 * i + 1] == High(ws[i])
  {
    if i == 0 {
    } else {
      HalvesAt(ws[1..], i - 1);
    }
  }

  lemma FoldWord(w: U32, rest: nat)
    ensures Fold(w + rest, M16) == Fold(Low(w) + High(w) + rest, M16)
  {
    var n := Low(w) + High(w) + rest;
    if n > 0 {
      FoldMultiple(n, High(w), M16);
    }
  }

  lemma {:induction false} FoldHalves(ws: seq<U32>)
    ensures Fold(Total(ws), M16) == Fold(Total(Halves(ws)), M16)
  {
    if ws == [] {
    } else {
      FoldHalves(ws[1..]);
      TotalHalves(ws);
      FoldWord(ws[0], Total(ws[1..]));
      FoldAdd(Total(ws[1..]), Low(ws[0]) + High(ws[0]), M16);
      FoldAdd(Total(Halves(ws[1..])), Low(ws[0]) + High(ws[0]), M16);
    }
  }

  lemma TotalHalves(ws: seq<U32>)
    requires ws != []
    ensures Total(Halves(ws)) == Low(ws[0]) + High(ws[0]) + Total(Halves(ws[1..]))
  {
    TotalConcat([Low(ws[0]), High(ws[0])], Halves(ws[1..]));
  }

  /** 0xffffffff is a multiple of 0xffff, so folding to 32 bits first loses nothing. */
  lemma {:induction false} FoldTwice(t: nat)
    ensures Fold(Fold(t, M32), M16) == Fold(t, M16)
  {
    if t <= M32 {
    } else {
      FoldTwice(t - M32);
      FoldMultiple(t - M32, 0x1_0001, M16);
    }
  }

  // ----- The checksum routines -----

  /** csum_fold: a 32-bit sum folded to 16 bits and complemented. */
  function CsumFold(sum: U32): (r: U16)
    ensures r == M16 - Fold(sum, M16)
  {
    var shifted := AddCarry(Reg(High(sum) * 0x1_0000, false), Low(sum) * 0x1_0000);
    var folded := AddCarry(shifted, 0xffff).sum;
    FoldWord(sum, 0);
    High(M32 - folded)
  }

  /** add32_with_carry. */
  function Add32WithCarry(a: U32, b: U32): (r: U32)
    ensures r == Fold(a + b, M32)
  {
    AddCarry(AddCarry(Reg(a, false), b), 0).sum
  }

  /** A 16-bit value stored in network order and read back by a little-endian machine. */
  function Swap(x: U16): (r: U16)
    ensures r == 0 <==> x == 0
  {
    x % 0x100 * 0x100 + x / 0x100
  }

  /** csum_tcpudp_nofold: the two small fields are shifted, not swapped. */
  function CsumTcpUdpNofold(saddr: U32, daddr: U32, len: U16, proto: U16, sum: U32): (r: U32)
    ensures r == Fold(sum + daddr + saddr + (len + proto) * 0x100, M32)
  {
    var a := AddCarry(Reg(sum, false), daddr);
    AddHolds(Reg(sum, false), sum, daddr);
    var b := AddCarry(a, saddr);
    AddHolds(a, sum + daddr, saddr);
    var c := AddCarry(b, (len + proto) * 0x100);
    AddHolds(b, sum + daddr + saddr, (len + proto) * 0x100);
    LastCarry(c, sum + daddr + saddr + (len + proto) * 0x100);
    AddCarry(c, 0).sum
  }

  function CsumTcpUdpMagic(saddr: U32, daddr: U32, len: U16, proto: U16, sum: U32): U16 {
    CsumFold(CsumTcpUdpNofold(saddr, daddr, len, proto, sum))
  }

  /** The pseudo-header of section 3.1 of RFC 9293 as a little-endian machine reads it. */
  function PseudoHeader(saddr: U32, daddr: U32, len: U16, proto: U16): seq<U16> {
    Halves([saddr, daddr]) + [Swap(proto), Swap(len)]
  }

  /** Section 2(B) of RFC 1071: shifting by a byte is swapping, up to multiples of 0xffff. */
  lemma ShiftIsSwap(x: U16, rest: nat)
    ensures Fold(x * 0x100 + rest, M16) == Fold(Swap(x) + rest, M16)
  {
    if Swap(x) + rest > 0 {
      FoldMultiple(Swap(x) + rest, x / 0x100, M16);
    }
  }

  /** The pseudo-header checksum, for a payload whose sum was brought along unfolded. */
  lemma MagicIsChecksum(saddr: U32, daddr: U32, len: U16, proto: U16, sum: U32, payload: seq<U16>)
    requires Fold(sum, M16) == OnesSum(payload)
    ensures CsumTcpUdpMagic(saddr, daddr, len, proto, sum) == InternetChecksum(PseudoHeader(saddr, daddr, len, proto) + payload)
  {
    hide Fold, Low, High, Swap, Halves, OnesSum, Total, PseudoHeader, CsumTcpUdpNofold, CsumFold;
    FoldTwice(sum + daddr + saddr + (len + proto) * 0x100);
    ShiftIsSwap(len, sum + daddr + saddr + proto * 0x100);
    ShiftIsSwap(proto, sum + daddr + saddr + Swap(len));
    FoldWord(saddr, sum + daddr + Swap(len) + Swap(proto));
    FoldWord(daddr, sum + Low(saddr) + High(saddr) + Swap(len) + Swap(proto));
    PseudoTotal(saddr, daddr, len, proto);
    var header := PseudoHeader(saddr, daddr, len, proto);
    FoldAdd(sum, Total(header), M16);
    OnesSumIsFold(payload);
    FoldAdd(Total(payload), Total(header), M16);
    TotalConcat(header, payload);
    OnesSumIsFold(header + payload);
  }

  lemma PseudoTotal(saddr: U32, daddr: U32, len: U16, proto: U16)
    ensures Total(PseudoHeader(saddr, daddr, len, proto))
         == Low(saddr) + High(saddr) + Low(daddr) + High(daddr) + Swap(proto) + Swap(len)
  {
    TotalHalves([saddr, daddr]);
    assert [saddr, daddr][1..] == [daddr];
    TotalHalves([daddr]);
    assert Halves([daddr][1..]) == [];
    TotalConcat(Halves([saddr, daddr]), [Swap(proto), Swap(len)]);
    TotalConcat([Swap(proto)], [Swap(len)]);
    assert [Swap(proto)] + [Swap(len)] == [Swap(proto), Swap(len)];
  }

  lemma NextWord(ws: seq<U32>, i: nat)
    requires i < |ws|
    ensures Total(ws[..i + 1]) == Total(ws[..i]) + ws[i]
  {
    TotalConcat(ws[..i], [ws[i]]);
    assert ws[..i + 1] == ws[..i] + [ws[i]];
  }

  lemma FirstWord(iph: seq<U32>)
    requires iph != []
    ensures Holds(Reg(iph[0], false), Total(iph[..1]))
  {
    NextWord(iph, 0);
  }

  /** Folding the 32-bit sum of a header once more gives its checksum. */
  lemma FoldedHeader(ws: seq<U32>, w: U32)
    requires w == Fold(Total(ws), M32)
    ensures var f := Low(w) + High(w); InternetChecksum(Halves(ws)) == M16 - if f > M16 then f - M16 else f
  {
    hide Total, Halves;
    FoldWord(w, 0);
    FoldTwice(Total(ws));
    FoldHalves(ws);
    OnesSumIsFold(Halves(ws));
  }

  /** The header loop; a header of at most four words is not summed and its first half word comes back. */
  method IpFastCsum(iph: seq<U32>, ihl: U32) returns (r: U16)
    requires 1 <= |iph| && (ihl > 4 ==> ihl <= |iph|)
    ensures ihl > 4 ==> r == InternetChecksum(Halves(iph[..ihl]))
    ensures ihl <= 4 ==> r == Low(iph[0])
  {
    hide Fold, Total, Halves, Holds;
    var reg := Reg(iph[0], false);
    if ihl <= 4 {
      return Low(reg.sum);
    }
    FirstWord(iph);
    reg := AddWord(iph, 1, reg);
    reg := AddWord(iph, 2, reg);
    reg := AddWord(iph, 3, reg);
    var p, left := 0, ihl - 4;
    while left > 0
      invariant p >= 0 && p + left == ihl - 4 && Holds(reg, Total(iph[..p + 4]))
    {
      reg := AddWord(iph, p + 4, reg);
      p, left := p + 1, left - 1;
    }
    LastCarry(reg, Total(iph[..ihl]));
    reg := AddCarry(reg, 0);
    var folded := Low(reg.sum) + High(reg.sum);
    if folded > M16 {
      folded := folded - 0x1_0000 + 1;
    }
    FoldedHeader(iph[..ihl], reg.sum);
    return M16 - folded;
  }

  method AddWord(iph: seq<U32>, i: nat, reg: Reg) returns (r: Reg)
    requires i < |iph| && Holds(reg, Total(iph[..i]))
    ensures r == AddCarry(reg, iph[i]) && Holds(r, Total(iph[..i + 1]))
  {
    NextWord(iph, i);
    AddHolds(reg, Total(iph[..i]), iph[i]);
    r := AddCarry(reg, iph[i]);
  }

  // ----- What the checksum is for -----

  lemma {:induction false} TotalUpdate(ws: seq<U16>, k: nat, c: U16)
    requires k < |ws|
    ensures Total(ws[k := c]) == Total(ws[k := 0]) + c
  {
    if k == 0 {
      assert ws[0 := c][1..] == ws[0 := 0][1..];
    } else {
      TotalUpdate(ws[1..], k - 1, c);
      assert ws[k := c][1..] == ws[1..][k - 1 := c];
      assert ws[k := 0][1..] == ws[1..][k - 1 := 0];
    }
  }

  /**
   Data holding c as its checksum verifies to zero exactly when c is the checksum of the data with that
   field zero, or its other representation: with a sum of 0xffff both zeros are accepted.
   */
  lemma VerifiesIff(ws: seq<U16>, k: nat, c: U16)
    requires k < |ws|
    ensures InternetChecksum(ws[k := c]) == 0 <==>
            c == InternetChecksum(ws[k := 0]) || (c == M16 && InternetChecksum(ws[k := 0]) == 0)
  {
    var rest := Total(ws[k := 0]);
    TotalUpdate(ws, k, c);
    OnesSumIsFold(ws[k := c]);
    OnesSumIsFold(ws[k := 0]);
    FoldAdd(rest, c, M16);
  }

  /** An IP header whose checksum field, half word 5, was filled in by the routine checks to zero. */
  method FillAndVerify(iph: seq<U32>, ihl: U32) returns (filled: seq<U32>, check: U16)
    requires 5 <= ihl <= |iph| && High(iph[2]) == 0
    ensures |filled| == |iph| && check == 0
    ensures forall i :: 0 <= i < |iph| && i != 2 ==> filled[i] == iph[i]
    ensures Low(filled[2]) == Low(iph[2])
  {
    var c := IpFastCsum(iph, ihl);
    filled := iph[2 := Join(Low(iph[2]), c)];
    check := IpFastCsum(filled, ihl);
    HalvesUpdate(iph[..ihl], 2, c);
    assert filled[..ihl] == iph[..ihl][2 := filled[2]];
    VerifiesIff(Halves(iph[..ihl]), 5, c);
    HalvesAt(iph[..ihl], 2);
    assert Halves(iph[..ihl])[5 := 0] == Halves(iph[..ihl]);
  }

  lemma {:induction false} HalvesUpdate(ws: seq<U32>, i: nat, c: U16)
    requires i < |ws|
    ensures Halves(ws[i := Join(Low(ws[i]), c)]) == Halves(ws)[2 * i + 1 := c]
  {
    var w := Join(Low(ws[i]), c);
    if i == 0 {
      assert ws[0 := w][1..] == ws[1..];
    } else {
      HalvesUpdate(ws[1..], i - 1, c);
      assert ws[i := w][1..] == ws[1..][i - 1 := w];
    }
  }

  function Swapped(ws: seq<U16>): (r: seq<U16>)
    ensures |r| == |ws|
  {
    seq(|ws|, i requires 0 <= i < |ws| => Swap(ws[i]))
  }

  /** Section 2(B) of RFC 1071: a machine of the other byte order computes the swapped checksum. */
  lemma ByteOrderIndependent(ws: seq<U16>)
    ensures InternetChecksum(Swapped(ws)) == Swap(InternetChecksum(ws))
  {
    hide Fold, Swap, OnesSum, Total, Swapped;
    SwappedTotal(ws);
    OnesSumIsFold(ws);
    OnesSumIsFold(Swapped(ws));
    FoldShifted(Total(ws));
    ShiftIsSwap(OnesSum(ws), 0);
    SwapFacts(OnesSum(ws));
  }

  lemma SwapFacts(x: U16)
    ensures Fold(Swap(x), M16) == Swap(x) && Swap(M16 - x) == M16 - Swap(x)
  {
    var high, low := x / 0x100, x % 0x100;
    assert M16 - x == (0xff - high) * 0x100 + (0xff - low);
    assert (M16 - x) / 0x100 == 0xff - high && (M16 - x) % 0x100 == 0xff - low;
  }

  lemma {:induction false} SwappedTotal(ws: seq<U16>)
    ensures Fold(Total(Swapped(ws)), M16) == Fold(Total(ws) * 0x100, M16)
  {
    if ws == [] {
    } else {
      SwappedTotal(ws[1..]);
      assert Swapped(ws)[1..] == Swapped(ws[1..]);
      ShiftIsSwap(ws[0], Total(ws[1..]) * 0x100);
      FoldAdd(Total(Swapped(ws[1..])), Swap(ws[0]), M16);
      FoldAdd(Total(ws[1..]) * 0x100, Swap(ws[0]), M16);
    }
  }

  lemma {:induction false} FoldShifted(n: nat)
    ensures Fold(n * 0x100, M16) == Fold(Fold(n, M16) * 0x100, M16)
  {
    if n <= M16 {
    } else {
      FoldShifted(n - M16);
      FoldMultiple((n - M16) * 0x100, 0x100, M16);
    }
  }
}
