/**
 Notifier chains of kernel/notifier.c: a linked list spliced in place, kept by descending priority
 with blocks of equal priority in the order they arrived.
 */
module Notifier {

  const ENOENT := 2
  const NOTIFY_DONE := 0x0000
  const NOTIFY_OK := 0x0001
  const NOTIFY_STOP_MASK := 0x8000

  class Block {
    const priority: int
    var next: Block?

    constructor (priority: int)
      ensures this.priority == priority
    {
      this.priority := priority;
      next := null;
    }
  }

  /** Higher priority first; on equal priorities the earlier arrival. */
  ghost predicate Before(a: Block, b: Block, arrival: map<Block, nat>)
    requires a in arrival && b in arrival
  {
    a.priority > b.priority || (a.priority == b.priority && arrival[a] < arrival[b])
  }

  /** NOTIFY_STOP_MASK is bit 15 of the returned int. */
  predicate Stops(ret: int) { ret / NOTIFY_STOP_MASK % 2 == 1 }

  /** notifier_from_errno: the mask joined to NOTIFY_OK - err. */
  function FromErrno(err: int): int {
    var r := NOTIFY_OK - err;
    if err == 0 then NOTIFY_OK else if Stops(r) then r else r + NOTIFY_STOP_MASK
  }

  /** notifier_to_errno: the value without the mask. */
  function ToErrno(ret: int): int {
    var r := if Stops(ret) then ret - NOTIFY_STOP_MASK else ret;
    if r > NOTIFY_OK then NOTIFY_OK - r else 0
  }

  /** NOTIFY_BAD (0x8002) and NOTIFY_STOP (0x8001) stop the chain; no value below 0x8000, such as NOTIFY_DONE and NOTIFY_OK, does. */
  lemma StopValues(ret: int)
    ensures Stops(0x8002) && Stops(0x8001)
    ensures 0 <= ret < 0x8000 ==> !Stops(ret) && Stops(ret + 0x8000) && !Stops(ret + 0x1_0000)
  {
  }

  /** An error code stops the chain and is recovered from what the chain returns; success does neither. */
  lemma ErrnoRoundTrip(err: int)
    requires -0x7FFE <= err <= 0
    ensures ToErrno(FromErrno(err)) == err && (Stops(FromErrno(err)) <==> err < 0)
    ensures FromErrno(0) == 1 && FromErrno(-1) == 0x8002 && ToErrno(0) == ToErrno(1) == ToErrno(0x8001) == 0
  {
    StopValues(NOTIFY_OK - err);
    StopValues(1);
  }

  /** Where a block of this priority goes: behind every block that is not of lower priority. */
  ghost function Place(list: seq<Block>, priority: int): (k: nat)
    ensures k <= |list| && (k < |list| ==> priority > list[k].priority)
    ensures forall i :: 0 <= i < k ==> priority <= list[i].priority
  {
    if list == [] || priority > list[0].priority then 0 else 1 + Place(list[1..], priority)
  }

  ghost function Inserted(list: seq<Block>, k: nat, n: Block): (r: seq<Block>)
    requires k <= |list|
    ensures |r| == |list| + 1 && r[k] == n
    ensures forall i :: 0 <= i < |r| ==> r[i] == if i < k then list[i] else if i == k then n else list[i - 1]
  {
    list[..k] + [n] + list[k..]
  }

  ghost function Removed(list: seq<Block>, k: nat): (r: seq<Block>)
    requires k < |list|
    ensures |r| == |list| - 1
    ensures forall i :: 0 <= i < |r| ==> r[i] == if i < k then list[i] else list[i + 1]
  {
    list[..k] + list[k + 1..]
  }

  /** `arrival` numbers the blocks in the order they were put on the chain, below `clock`. */
  ghost predicate Ordered(list: seq<Block>, arrival: map<Block, nat>, clock: nat) {
    && (forall i :: 0 <= i < |list| ==> list[i] in arrival && arrival[list[i]] < clock)
    && (forall i, j :: 0 <= i < j < |list| ==> Before(list[i], list[j], arrival))
  }

  /** A block put in its place as the youngest of its priority keeps the order. */
  lemma InsertedOrdered(list: seq<Block>, arrival: map<Block, nat>, clock: nat, n: Block)
    requires Ordered(list, arrival, clock) && n !in list
    ensures Ordered(Inserted(list, Place(list, n.priority), n), arrival[n := clock], clock + 1)
  {
    var k := Place(list, n.priority);
    var longer := Inserted(list, k, n);
    forall i, j | 0 <= i < j < |longer| ensures Before(longer[i], longer[j], arrival[n := clock]) {
      PairInOrder(list, arrival, clock, n, i, j);
    }
  }

  lemma PairInOrder(list: seq<Block>, arrival: map<Block, nat>, clock: nat, n: Block, i: nat, j: nat)
    requires Ordered(list, arrival, clock) && n !in list && i < j <= |list|
    ensures
      var longer := Inserted(list, Place(list, n.priority), n);
      longer[i] in arrival[n := clock] && longer[j] in arrival[n := clock] && Before(longer[i], longer[j], arrival[n := clock])
  {
    var k := Place(list, n.priority);
    if i == k {
      assert k < j - 1 ==> Before(list[k], list[j - 1], arrival);
    } else if j != k {
      assert Before(list[if i < k then i else i - 1], list[if j < k then j else j - 1], arrival);
    }
  }

  class Chain {
    var head: Block?
    ghost var list: seq<Block>
    ghost var arrival: map<Block, nat>
    ghost var clock: nat

    /** The blocks of the list are linked from the head, and none is there twice. */
    ghost predicate Linked()
      reads this, list
    {
      && head == (if list == [] then null else list[0])
      && (forall i {:trigger list[i].next} :: 0 <= i < |list| ==> list[i].next == if i + 1 < |list| then list[i + 1] else null)
      && (forall i, j :: 0 <= i < j < |list| ==> list[i] != list[j])
    }

    ghost predicate Ok()
      reads this, list
    {
      Linked() && Ordered(list, arrival, clock)
    }

    constructor ()
      ensures Ok() && list == []
    {
      head, list, arrival, clock := null, [], map[], 0;
    }

    /** Links n in between number k - 1 and number k, where *nl is the link that leads to number k. */
    method Splice(n: Block, ghost k: nat, before: Block?)
      requires Linked() && n !in list && k <= |list|
      requires before == if k == 0 then null else list[k - 1]
      modifies this`head, this`list, n`next, list`next
      ensures Linked() && list == Inserted(old(list), k, n)
    {
      if before == null {
        n.next := head;
        head := n;
      } else {
        n.next := before.next;
        before.next := n;
      }
      ghost var was := list;
      list := Inserted(was, k, n);
      forall i {:trigger list[i].next} | 0 <= i < |list| ensures list[i].next == if i + 1 < |list| then list[i + 1] else null {
        if i < k - 1 {
          assert was[i] != before && old(was[i].next) == was[i + 1];
          assert list[i].next == was[i + 1];
        } else if i > k {
          assert was[i - 1] != before && old(was[i - 1].next) == if i < |was| then was[i] else null;
          assert list[i].next == if i < |was| then was[i] else null;
        } else if k > 0 {
          assert old(was[k - 1].next) == if k < |was| then was[k] else null;
          assert i == k ==> list[i].next == if k < |was| then was[k] else null;
          assert i == k - 1 ==> list[i].next == n;
        } else {
          assert list[i].next == if 0 < |was| then was[0] else null;
        }
      }
    }

    /** The walk ended at number k: the block goes there, as the youngest of its priority. */
    method Insert(n: Block, ghost k: nat, before: Block?)
      requires Ok() && n !in list && k == Place(list, n.priority)
      requires before == if k == 0 then null else list[k - 1]
      modifies this, n, list`next
      ensures Ok() && list == Inserted(old(list), k, n)
      ensures arrival == old(arrival)[n := old(clock)] && clock == old(clock) + 1
    {
      InsertedOrdered(list, arrival, clock, n);
      Splice(n, k, before);
      arrival, clock := arrival[n := clock], clock + 1;
    }

    method Register(n: Block)
      requires Ok() && n !in list
      modifies this, n, list`next
      ensures Ok()
      ensures list == Inserted(old(list), Place(old(list), n.priority), n)
      ensures arrival == old(arrival)[n := old(clock)] && clock == old(clock) + 1
    {
      var before: Block?, cur := null, head;
      ghost var k := 0;
      while cur != null
        invariant 0 <= k <= |list| && Ok()
        invariant cur == (if k < |list| then list[k] else null) && before == if k == 0 then null else list[k - 1]
        invariant forall i :: 0 <= i < k ==> n.priority <= list[i].priority
        decreases |list| - k
      {
        if n.priority > cur.priority { break; }
        before, cur := cur, cur.next;
        k := k + 1;
      }
      PlaceIs(list, n.priority, k);
      Insert(n, k, before);
    }

    lemma PlaceIs(list: seq<Block>, priority: int, k: nat)
      requires k <= |list| && (k < |list| ==> priority > list[k].priority)
      requires forall i :: 0 <= i < k ==> priority <= list[i].priority
      ensures k == Place(list, priority)
    {
    }

    /** The walk stops at the first block of lower priority; a block already present is never behind that point. */
    method CondRegister(n: Block)
      requires Ok()
      modifies this, n, list`next
      ensures Ok()
      ensures n in old(list) ==> unchanged(this) && unchanged(old(list))
      ensures n !in old(list) ==> list == Inserted(old(list), Place(old(list), n.priority), n)
      ensures n !in old(list) ==> arrival == old(arrival)[n := old(clock)] && clock == old(clock) + 1
    {
      var before: Block?, cur := null, head;
      ghost var k := 0;
      while cur != null
        invariant 0 <= k <= |list| && Ok() && n !in list[..k] && unchanged(this) && unchanged(list) && unchanged(n)
        invariant cur == (if k < |list| then list[k] else null) && before == if k == 0 then null else list[k - 1]
        invariant forall i :: 0 <= i < k ==> n.priority <= list[i].priority
        decreases |list| - k
      {
        if cur == n { return; }
        if n.priority > cur.priority { break; }
        before, cur := cur, cur.next;
        k := k + 1;
      }
      assert n !in list[k..];
      assert list == list[..k] + list[k..];
      PlaceIs(list, n.priority, k);
      Insert(n, k, before);
    }

    method Unlink(n: Block, ghost k: nat, before: Block?)
      requires Linked() && k < |list| && list[k] == n
      requires before == if k == 0 then null else list[k - 1]
      modifies this`head, this`list, list`next
      ensures Linked() && list == Removed(old(list), k)
    {
      if before == null { head := n.next; } else { before.next := n.next; }
      ghost var was := list;
      list := Removed(was, k);
      forall i {:trigger list[i].next} | 0 <= i < |list| ensures list[i].next == if i + 1 < |list| then list[i + 1] else null {
        assert old(n.next) == old(was[k].next) == if k + 1 < |was| then was[k + 1] else null;
        if i < k - 1 {
          assert was[i] != before && was[i].next == was[i + 1];
        } else if i >= k {
          assert was[i + 1] != before && was[i + 1].next == if i + 2 < |was| then was[i + 2] else null;
        }
      }
    }

    method Unregister(n: Block) returns (ret: int)
      requires Ok()
      modifies this, list`next
      ensures Ok() && ret == if n in old(list) then 0 else -2
      ensures n !in old(list) ==> list == old(list)
      ensures arrival == old(arrival) && clock == old(clock)
      ensures forall i :: 0 <= i < |old(list)| && old(list)[i] == n ==> list == Removed(old(list), i)
    {
      var before: Block?, cur := null, head;
      ghost var k := 0;
      while cur != null
        invariant 0 <= k <= |list| && Ok() && n !in list[..k] && unchanged(this) && unchanged(list)
        invariant cur == (if k < |list| then list[k] else null) && before == if k == 0 then null else list[k - 1]
        decreases |list| - k
      {
        if cur == n {
          Unlink(n, k, before);
          return 0;
        }
        assert list[k].next == if k + 1 < |list| then list[k + 1] else null;
        before, cur := cur, cur.next;
        k := k + 1;
      }
      return -ENOENT;
    }


    /** Calls the chain in order; `answers` are what the successive callbacks return. */
    method CallChain(limit: int, answers: seq<int>) returns (ret: int, calls: nat, called: seq<Block>)
      requires Ok() && |list| <= |answers|
      ensures calls == |called| && called <= list
      ensures limit >= 0 ==> calls <= limit
      ensures ret == if calls == 0 then NOTIFY_DONE else answers[calls - 1]
      ensures forall i :: 0 <= i < calls - 1 ==> !Stops(answers[i])
      ensures calls == |list| || calls == limit || (calls > 0 && Stops(answers[calls - 1]))
    {
      ret, calls, called := NOTIFY_DONE, 0, [];
      var cur, left := head, limit;
      while cur != null && left != 0
        invariant Linked() && calls == |called| <= |list| && called == list[..calls] && left == limit - calls
        invariant limit >= 0 ==> left >= 0
        invariant cur == if calls < |list| then list[calls] else null
        invariant ret == if calls == 0 then NOTIFY_DONE else answers[calls - 1]
        invariant forall i :: 0 <= i < calls ==> !Stops(answers[i])
        decreases |list| - calls
      {
        var next := cur.next;
        assert list[calls].next == if calls + 1 < |list| then list[calls + 1] else null;
        ret := answers[calls];
        called := called + [cur];
        calls := calls + 1;
        if Stops(ret) { break; }
        cur, left := next, left - 1;
      }
    }
  }
}
