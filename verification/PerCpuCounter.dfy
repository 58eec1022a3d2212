/**
 Batching per-CPU counters of lib/percpu_counter.c, run one operation at a time.  The per-CPU
 counts are 32 bits wide and wrap; the shared count is 64 bits wide and is taken as unbounded.
 The per-CPU read is either live or, as dummies.h defines it, the constant 0.
 */
module PerCpuCounter {

  const MIN32 := -0x8000_0000
  const MAX32 := 0x7fff_ffff
  const RANGE := 0x1_0000_0000

  predicate Fits(x: int) { MIN32 <= x <= MAX32 }

  /** The 32-bit value of x. */
  function Wrap(x: int): (r: int)
    ensures Fits(r) && (Fits(x) <==> r == x) && (r - x) % RANGE == 0
  {
    (x - MIN32) % RANGE + MIN32
  }

  lemma WrapAgain(x: int, y: int)
    ensures Wrap(Wrap(x) + y) == Wrap(x + y)
  {
    var k := (Wrap(x) - x) / RANGE;
    assert Wrap(x) + y - MIN32 == (x + y - MIN32) + RANGE * k;
  }

  function Abs(x: int): nat { if x < 0 then -x else x }

  function Sign(x: int): int { if x > 0 then 1 else if x < 0 then -1 else 0 }

  ghost function Total(s: seq<int>): int {
    if s == [] then 0 else Total(s[..|s| - 1]) + s[|s| - 1]
  }

  lemma {:induction false} TotalUpdate(s: seq<int>, i: nat, x: int)
    requires i < |s|
    ensures Total(s[i := x]) == Total(s) - s[i] + x
  {
    var last := |s| - 1;
    if i < last {
      TotalUpdate(s[..last], i, x);
      assert s[i := x][..last] == s[..last][i := x];
    } else {
      assert s[i := x][..last] == s[..last];
    }
  }

  lemma {:induction false} TotalZero(s: seq<int>)
    requires forall i :: 0 <= i < |s| ==> s[i] == 0
    ensures Total(s) == 0
  {
    if s == [] {
    } else {
      TotalZero(s[..|s| - 1]);
    }
  }

  /** Counts strictly within a bound add up to at most the bound times their number. */
  lemma {:induction false} TotalWithin(s: seq<int>, bound: nat)
    requires forall i :: 0 <= i < |s| ==> Abs(s[i]) < bound
    ensures Abs(Total(s)) <= |s| * bound
  {
    if s == [] {
    } else {
      TotalWithin(s[..|s| - 1], bound);
      assert |s| * bound == (|s| - 1) * bound + bound;
    }
  }

  // ----- The counter as a value -----

  /** The shared count and the per-CPU counts. */
  datatype Counts = Counts(shared: int, local: seq<int>)

  ghost function Value(s: Counts): int { s.shared + Total(s.local) }

  datatype Addition = Addition(cpu: nat, amount: int, batch: int)

  predicate Valid(a: Addition, cpus: nat) { a.cpu < cpus && MIN32 < a.batch <= MAX32 }

  /** One addition, as __percpu_counter_add performs it. */
  function Added(s: Counts, a: Addition, live: bool): Counts
    requires Valid(a, |s.local|)
  {
    var total := (if live then s.local[a.cpu] else 0) + a.amount;
    if total >= a.batch || total <= -a.batch then
      Counts(s.shared + total, s.local[a.cpu := Wrap(s.local[a.cpu] - (total - a.amount))])
    else
      s.(local := s.local[a.cpu := Wrap(s.local[a.cpu] + a.amount)])
  }

  function Start(amount: int, cpus: nat): Counts { Counts(amount, seq(cpus, _ => 0)) }

  ghost predicate AllValid(adds: seq<Addition>, cpus: nat) { forall i :: 0 <= i < |adds| ==> Valid(adds[i], cpus) }

  /** percpu_counter_set followed by additions. */
  ghost function After(start: int, cpus: nat, adds: seq<Addition>, live: bool): (s: Counts)
    requires AllValid(adds, cpus)
    ensures |s.local| == cpus && forall i :: 0 <= i < cpus ==> Fits(s.local[i])
  {
    if adds == [] then Start(start, cpus)
    else Added(After(start, cpus, adds[..|adds| - 1], live), adds[|adds| - 1], live)
  }

  ghost function Amounts(adds: seq<Addition>): int {
    if adds == [] then 0 else Amounts(adds[..|adds| - 1]) + adds[|adds| - 1].amount
  }

  // ----- Conservation -----

  /** What one addition does to the value: it is off by a multiple of 2^32, with the constant read and a count out of range. */
  lemma AddedValue(s: Counts, a: Addition, live: bool)
    requires Valid(a, |s.local|) && forall i :: 0 <= i < |s.local| ==> Fits(s.local[i])
    ensures (Value(Added(s, a, live)) - Value(s) - a.amount) % RANGE == 0
    ensures Value(Added(s, a, live)) == Value(s) + a.amount <==>
            live || Abs(a.amount) >= a.batch || Fits(s.local[a.cpu] + a.amount)
  {
    TotalUpdate(s.local, a.cpu, Added(s, a, live).local[a.cpu]);
  }

  /** For both reads the value is right modulo 2^32. */
  lemma {:induction false} ConservedModulo(start: int, cpus: nat, adds: seq<Addition>, live: bool)
    requires AllValid(adds, cpus)
    ensures (Value(After(start, cpus, adds, live)) - start - Amounts(adds)) % RANGE == 0
  {
    hide Added;
    if adds == [] {
      TotalZero(Start(start, cpus).local);
    } else {
      var front, a := adds[..|adds| - 1], adds[|adds| - 1];
      ConservedModulo(start, cpus, front, live);
      AddedValue(After(start, cpus, front, live), a, live);
    }
  }

  /** With the live read nothing is lost, and every per-CPU count stays strictly within the batch. */
  lemma {:induction false} LiveConserved(start: int, cpus: nat, adds: seq<Addition>, bound: nat)
    requires AllValid(adds, cpus) && bound > 0 && forall i :: 0 <= i < |adds| ==> adds[i].batch <= bound
    ensures var s := After(start, cpus, adds, true);
            Value(s) == start + Amounts(adds) && forall i :: 0 <= i < cpus ==> Abs(s.local[i]) < bound
  {
    if adds == [] {
      TotalZero(Start(start, cpus).local);
    } else {
      var front, a := adds[..|adds| - 1], adds[|adds| - 1];
      LiveConserved(start, cpus, front, bound);
      AddedValue(After(start, cpus, front, true), a, true);
    }
  }

  // ----- The constant read -----

  predicate Small(a: Addition) { Abs(a.amount) < a.batch }

  /** The amounts below the batch that were added on one CPU. */
  ghost function SmallSum(adds: seq<Addition>, cpu: nat): int {
    if adds == [] then 0
    else
      var a := adds[|adds| - 1];
      SmallSum(adds[..|adds| - 1], cpu) + if Small(a) && a.cpu == cpu then a.amount else 0
  }

  /** The amounts below the batch on all CPUs together. */
  ghost function Kept(adds: seq<Addition>): int {
    if adds == [] then 0
    else Kept(adds[..|adds| - 1]) + if Small(adds[|adds| - 1]) then adds[|adds| - 1].amount else 0
  }

  /** Each per-CPU count is the 32-bit value of the small amounts added there: it is never emptied. */
  lemma {:induction false} ConstantCounts(start: int, cpus: nat, adds: seq<Addition>, cpu: nat)
    requires AllValid(adds, cpus) && cpu < cpus
    ensures After(start, cpus, adds, false).local[cpu] == Wrap(SmallSum(adds, cpu))
    ensures After(start, cpus, adds, false).shared == start + Amounts(adds) - Kept(adds)
  {
    if adds == [] {
    } else {
      var front, a := adds[..|adds| - 1], adds[|adds| - 1];
      ConstantCounts(start, cpus, front, cpu);
      WrapAgain(SmallSum(front, cpu), a.amount);
    }
  }

  ghost predicate InRange(adds: seq<Addition>, cpus: nat) {
    forall cpu :: 0 <= cpu < cpus ==> Fits(SmallSum(adds, cpu))
  }

  /** No CPU's running sum of small amounts ever leaves 32 bits. */
  ghost predicate StaysInRange(adds: seq<Addition>, cpus: nat) {
    forall k :: 0 <= k <= |adds| ==> InRange(adds[..k], cpus)
  }

  /** The value is right all along. */
  ghost predicate RightThroughout(start: int, cpus: nat, adds: seq<Addition>)
    requires AllValid(adds, cpus)
  {
    forall k :: 0 <= k <= |adds| ==> Value(After(start, cpus, adds[..k], false)) == start + Amounts(adds[..k])
  }

  lemma Prefixes(adds: seq<Addition>)
    requires adds != []
    ensures var front := adds[..|adds| - 1]; forall k :: 0 <= k <= |front| ==> front[..k] == adds[..k]
    ensures adds[..|adds|] == adds
  {
  }

  /** With the constant read the value is right all along if and only if no running sum leaves 32 bits. */
  lemma {:induction false} ConstantConservedIff(start: int, cpus: nat, adds: seq<Addition>)
    requires AllValid(adds, cpus)
    ensures RightThroughout(start, cpus, adds) <==> StaysInRange(adds, cpus)
  {
    hide After, Amounts, InRange, Value;
    if adds == [] {
      ConstantNothing(start, cpus, adds);
    } else {
      var front := adds[..|adds| - 1];
      Prefixes(adds);
      ConstantConservedIff(start, cpus, front);
      if RightThroughout(start, cpus, front) {
        assert RightThroughout(start, cpus, adds) <==> Value(After(start, cpus, adds, false)) == start + Amounts(adds);
        assert StaysInRange(adds, cpus) <==> InRange(adds, cpus);
        ConstantStep(start, cpus, adds);
      } else {
        var k :| 0 <= k <= |front| && Value(After(start, cpus, front[..k], false)) != start + Amounts(front[..k]);
        assert front[..k] == adds[..k];
        var j :| 0 <= j <= |front| && !InRange(front[..j], cpus);
        assert front[..j] == adds[..j];
      }
    }
  }

  lemma ConstantNothing(start: int, cpus: nat, adds: seq<Addition>)
    requires adds == []
    ensures RightThroughout(start, cpus, adds) && StaysInRange(adds, cpus)
  {
    TotalZero(Start(start, cpus).local);
  }

  lemma {:induction false} ConstantStep(start: int, cpus: nat, adds: seq<Addition>)
    requires AllValid(adds, cpus) && adds != [] && RightThroughout(start, cpus, adds[..|adds| - 1])
    requires StaysInRange(adds[..|adds| - 1], cpus)
    ensures Value(After(start, cpus, adds, false)) == start + Amounts(adds)
       <==> InRange(adds, cpus)
  {
    hide Added;
    var front, a := adds[..|adds| - 1], adds[|adds| - 1];
    assert front[..|front|] == front;
    assert Value(After(start, cpus, front, false)) == start + Amounts(front);
    AddedValue(After(start, cpus, front, false), a, false);
    ConstantCounts(start, cpus, front, a.cpu);
    assert InRange(front[..|front|], cpus);
    assert forall cpu :: 0 <= cpu < cpus && cpu != a.cpu ==> SmallSum(adds, cpu) == SmallSum(front, cpu);
    assert SmallSum(adds, a.cpu) == SmallSum(front, a.cpu) + if Small(a) then a.amount else 0;
  }

  /** While the value is right the per-CPU counts together hold exactly the small amounts. */
  lemma {:induction false} ConstantDrift(start: int, cpus: nat, adds: seq<Addition>)
    requires AllValid(adds, cpus) && cpus > 0
    ensures var s := After(start, cpus, adds, false);
            Value(s) == start + Amounts(adds) <==> Total(s.local) == Kept(adds)
  {
    hide After, Wrap;
    ConstantCounts(start, cpus, adds, 0);
  }

  // ----- Comparing -----

  /** percpu_counter_compare: the shared count decides when it is far enough from rhs. */
  ghost function Compared(s: Counts, rhs: int, batch: nat): int {
    if Abs(s.shared - rhs) > batch * |s.local| then (if s.shared > rhs then 1 else -1) else Sign(Value(s) - rhs)
  }

  /**
   The comparison is right if and only if the shared count is close to rhs, so that the exact sum is taken, or the
   per-CPU counts together do not reach across the distance from the shared count to rhs.
   */
  lemma ComparedRightIff(s: Counts, rhs: int, batch: nat)
    ensures var distance, drift := rhs - s.shared, Total(s.local);
            Compared(s, rhs, batch) == Sign(Value(s) - rhs) <==>
            Abs(distance) <= batch * |s.local| || (if distance > 0 then drift < distance else drift > distance)
  {
    assert batch * |s.local| >= 0;
  }

  /** With the live read the comparison is always right. */
  lemma {:induction false} LiveComparison(start: int, cpus: nat, adds: seq<Addition>, rhs: int, batch: nat)
    requires AllValid(adds, cpus) && batch > 0 && forall i :: 0 <= i < |adds| ==> adds[i].batch <= batch
    ensures Compared(After(start, cpus, adds, true), rhs, batch) == Sign(start + Amounts(adds) - rhs)
  {
    hide After, Compared;
    var s := After(start, cpus, adds, true);
    LiveConserved(start, cpus, adds, batch);
    TotalWithin(s.local, batch);
    ComparedRightIff(s, rhs, batch);
  }

  /** With the constant read, and sums in range, it is right exactly if the small amounts do not reach across that distance. */
  lemma {:induction false} ConstantComparisonIff(start: int, cpus: nat, adds: seq<Addition>, rhs: int, batch: nat)
    requires AllValid(adds, cpus) && cpus > 0 && StaysInRange(adds, cpus)
    ensures var distance := rhs - (start + Amounts(adds) - Kept(adds));
            Compared(After(start, cpus, adds, false), rhs, batch) == Sign(start + Amounts(adds) - rhs) <==>
            Abs(distance) <= batch * cpus || (if distance > 0 then Kept(adds) < distance else Kept(adds) > distance)
  {
    hide After, Compared, Wrap, SmallSum;
    ConstantConservedIff(start, cpus, adds);
    assert adds[..|adds|] == adds;
    assert Value(After(start, cpus, adds[..|adds|], false)) == start + Amounts(adds[..|adds|]);
    ConstantDrift(start, cpus, adds);
    ConstantCounts(start, cpus, adds, 0);
    ComparedRightIff(After(start, cpus, adds, false), rhs, batch);
  }

  // ----- The counter in place -----

  class Counter {
    var count: int
    const counters: array<int>

    ghost function Contents(): Counts
      reads this, counters
    {
      Counts(count, counters[..])
    }

    constructor (cpus: nat)
      ensures fresh(counters) && Contents() == Start(0, cpus)
    {
      counters := new int[cpus](_ => 0);
      count := 0;
    }

    method Set(amount: int)
      modifies this, counters
      ensures Contents() == Start(amount, counters.Length)
    {
      var cpu := 0;
      while cpu < counters.Length
        invariant 0 <= cpu <= counters.Length && forall i :: 0 <= i < cpu ==> counters[i] == 0
      {
        counters[cpu] := 0;
        cpu := cpu + 1;
      }
      count := amount;
    }

    method Add(cpu: nat, amount: int, batch: int, live: bool)
      requires Valid(Addition(cpu, amount, batch), counters.Length)
      modifies this, counters
      ensures Contents() == Added(old(Contents()), Addition(cpu, amount, batch), live)
    {
      var total := (if live then counters[cpu] else 0) + amount;
      if total >= batch || total <= -batch {
        count := count + total;
        counters[cpu] := Wrap(counters[cpu] - (total - amount));
      } else {
        counters[cpu] := Wrap(counters[cpu] + amount);
      }
    }

    /** Setting the counter and any additions after it. */
    method Run(start: int, adds: seq<Addition>, live: bool)
      requires AllValid(adds, counters.Length)
      modifies this, counters
      ensures Contents() == After(start, counters.Length, adds, live)
      ensures (Value(Contents()) - start - Amounts(adds)) % RANGE == 0
    {
      hide Added;
      Set(start);
      var i := 0;
      while i < |adds|
        invariant 0 <= i <= |adds| && Contents() == After(start, counters.Length, adds[..i], live)
      {
        Add(adds[i].cpu, adds[i].amount, adds[i].batch, live);
        assert adds[..i + 1][..i] == adds[..i];
        i := i + 1;
      }
      assert adds[..i] == adds;
      ConservedModulo(start, counters.Length, adds, live);
    }

    method Sum() returns (ret: int)
      ensures ret == Value(Contents())
    {
      ret := count;
      var cpu := 0;
      while cpu < counters.Length
        invariant 0 <= cpu <= counters.Length && ret == count + Total(counters[..cpu])
      {
        assert counters[..cpu + 1][..cpu] == counters[..cpu];
        ret := ret + counters[cpu];
        cpu := cpu + 1;
      }
      assert counters[..cpu] == counters[..];
    }

    method Compare(rhs: int, batch: nat) returns (r: int)
      ensures r == Compared(Contents(), rhs, batch)
    {
      if Abs(count - rhs) > batch * counters.Length {
        if count > rhs { return 1; } else { return -1; }
      }
      var sum := Sum();
      if sum > rhs { return 1; } else if sum < rhs { return -1; } else { return 0; }
    }
  }

  /** Four additions of 25 with the constant read: the shared count is still 0, and 100 is found to be less than 50. */
  lemma StaleReadMisleads()
    ensures var a := Addition(0, 25, 32);
            var adds := [a, a, a, a];
            && AllValid(adds, 1) && StaysInRange(adds, 1) && Amounts(adds) == 100
            && Compared(After(0, 1, adds, false), 50, 32) == -1
  {
    var a := Addition(0, 25, 32);
    var adds := [a, a, a, a];
    forall k | 0 <= k <= |adds| ensures InRange(adds[..k], 1) { Repeated(adds[..k], a); }
    Repeated(adds, a);
    ConstantCounts(0, 1, adds, 0);
  }

  lemma Repeated(adds: seq<Addition>, a: Addition)
    requires a == Addition(0, 25, 32) && forall i :: 0 <= i < |adds| ==> adds[i] == a
    ensures Amounts(adds) == 25 * |adds| && Kept(adds) == 25 * |adds| && SmallSum(adds, 0) == 25 * |adds|
  {
  }
}
