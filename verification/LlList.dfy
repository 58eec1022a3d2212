/**
 The operations of service/ll.c, one at a time: the links, the reference counts and the size refine a
 sequence of nodes, while any number of unlinked nodes wait to be released.

 Compare-and-swap operations always find the value they expect.  Interleaved runs are the subject of
 LlMachine.
 */
module LlList {
  import opened LlTypes
  import opened LlShape

  /** The live node that a node inserted after rel comes behind: rel, or what pred() finds once rel is unlinked. */
  ghost function LandsAfter(m: seq<Node>, order: seq<nat>, place: seq<real>, rel: nat): nat
    requires Settled(m, order, place) && Valid(m, rel)
  {
    if rel != HEAD && Deleted(m, rel) then Last(PredPath(m, order, place, rel)) else rel
  }

  /** The live node that a node inserted before rel comes before. */
  ghost function LandsBefore(m: seq<Node>, order: seq<nat>, place: seq<real>, rel: nat): nat
    requires Settled(m, order, place) && Valid(m, rel)
  {
    if rel != HEAD && Deleted(m, rel) then Last(SuccPath(m, order, place, rel)) else rel
  }

  ghost predicate Adjacent(order: seq<nat>, p: nat, s: nat) {
    exists k :: 0 <= k <= |order| && Ring(order)[k] == p && Ring(order)[k + 1] == s
  }

  /** n could be released: it is unlinked and only its caller refers to it. */
  ghost predicate Releasable(m: seq<Node>, held: seq<nat>, n: nat) {
    HEAD < n < |m| && n < |held| && Deleted(m, n) && m[n].cnt <= 1 <= held[n]
  }

  /** Popping: succ() or pred() of the head leaves the links of unlinked nodes alone. */
  lemma PopReady(m: seq<Node>, m': seq<Node>, order: seq<nat>, place: seq<real>, n: nat)
    requires Settled(m, order, place) && n in order && (SameButSucc(m, m', HEAD) || SameButPred(m, m', HEAD))
    ensures HEAD < n < |m'| && (NoneLeads(m, n) ==> NoneLeads(m', n))
  {
    var k :| 0 <= k < |order| && order[k] == n;
    OnRing(m, order, place, k);
    if NoneLeads(m, n) {
      forall x | HEAD < x < |m'| && Deleted(m', x) ensures m'[x].succ.a != n && m'[x].pred.a != n {
        assert Deleted(m, x);
      }
    }
  }

  lemma LandsBeforeSame(m: seq<Node>, m': seq<Node>, order: seq<nat>, place: seq<real>, rel: nat)
    requires Settled(m, order, place) && Settled(m', order, place) && SameSuccs(m, m') && Stands(m, order, rel)
    ensures LandsBefore(m', order, place, rel) == LandsBefore(m, order, place, rel)
  {
    hide Linked, Sorted, RestOk, SuccPath;
    if rel != HEAD && Deleted(m, rel) { SuccPathKept(m, m', order, place, rel, NIL); }
  }

  lemma LandsBeforeKept(m: seq<Node>, m': seq<Node>, order: seq<nat>, place: seq<real>, rel: nat, n: nat)
    requires Settled(m, order, place) && Settled(m', order, place) && OthersKept(m, m', n)
    requires Stands(m, order, rel) && rel != n && !Stands(m', order, n)
    ensures Stands(m', order, rel) && LandsBefore(m', order, place, rel) == LandsBefore(m, order, place, rel)
  {
    hide Linked, Sorted, RestOk, SuccPath;
    if rel != HEAD && Deleted(m, rel) { SuccPathKept(m, m', order, place, rel, n); }
  }

  /** Of two nodes inserted after and before the same unlinked node, the first lands no later than the second. */
  lemma LandInOrder(m: seq<Node>, order: seq<nat>, place: seq<real>, rel: nat) returns (i: nat, j: nat)
    requires Settled(m, order, place) && HEAD < rel < |m| && Deleted(m, rel)
    ensures i <= j <= |order|
    ensures Ring(order)[i] == LandsAfter(m, order, place, rel) && Ring(order)[j + 1] == LandsBefore(m, order, place, rel)
  {
    hide Linked, Sorted, RestOk, SuccPath, PredPath, Ring;
    i, j := GoneBetween(m, order, place, rel);
    j := j - 1;
  }

  /** n has been inserted right behind p on the list. */
  ghost predicate InsertedBehind(order: seq<nat>, order': seq<nat>, n: nat, p: nat) {
    p in Ring(order) && forall k :: 0 <= k <= |order| && Ring(order)[k] == p ==> order' == Insert(order, k, n)
  }

  ghost predicate InsertedBefore(order: seq<nat>, order': seq<nat>, n: nat, s: nat) {
    s in Ring(order) && forall k :: 0 <= k <= |order| && Ring(order)[k + 1] == s ==> order' == Insert(order, k, n)
  }

  ghost predicate SamePreds(m: seq<Node>, m': seq<Node>) {
    |m'| == |m| && forall x :: 0 <= x < |m| ==> m'[x].pred == m[x].pred
  }

  ghost predicate SameSuccs(m: seq<Node>, m': seq<Node>) {
    |m'| == |m| && forall x :: 0 <= x < |m| ==> m'[x].succ == m[x].succ && m'[x].pred.fl == m[x].pred.fl
  }

  lemma LinksSame(m: seq<Node>, m': seq<Node>)
    requires SameLinks(m, m')
    ensures SamePreds(m, m') && SameSuccs(m, m')
  {
  }

  lemma LandsAfterSame(m: seq<Node>, m': seq<Node>, order: seq<nat>, place: seq<real>, rel: nat)
    requires Settled(m, order, place) && Settled(m', order, place) && SamePreds(m, m') && Stands(m, order, rel)
    ensures LandsAfter(m', order, place, rel) == LandsAfter(m, order, place, rel)
  {
    hide Linked, Sorted, RestOk, PredPath;
    if rel != HEAD && Deleted(m, rel) { PredPathKept(m, m', order, place, rel, NIL); }
  }

  lemma LandsOnList(m: seq<Node>, order: seq<nat>, held: seq<nat>, place: seq<real>, rel: nat)
    requires Represents(m, order, held, place) && Stands(m, order, rel) && Deleted(m, rel)
    ensures rel != HEAD
    ensures LandsAfter(m, order, place, rel) in Ring(order) && EndOf(PrevPath(m, order, place, rel)) == LandsAfter(m, order, place, rel)
    ensures LandsBefore(m, order, place, rel) in Ring(order) && EndOf(NextPath(m, order, place, rel)) == LandsBefore(m, order, place, rel)
  {
    hide Sorted, RestOk, PredPath, SuccPath, CountOk;
    LiveRing(m, order, HEAD);
  }

  /** Callers hold one more reference to each of n, p and s. */
  ghost predicate Held3(held: seq<nat>, held': seq<nat>, n: nat, p: nat, s: nat) {
    |held'| == |held| && forall x :: 0 <= x < |held| ==> held'[x] == held[x] + One(n, x) + One(p, x) + One(s, x)
  }

  lemma LandsAfterKept(m: seq<Node>, m': seq<Node>, order: seq<nat>, place: seq<real>, rel: nat, n: nat)
    requires Settled(m, order, place) && Settled(m', order, place) && OthersKept(m, m', n)
    requires Stands(m, order, rel) && rel != n && !Stands(m', order, n)
    ensures Stands(m', order, rel) && LandsAfter(m', order, place, rel) == LandsAfter(m, order, place, rel)
  {
    hide Linked, Sorted, RestOk, PredPath;
    if rel != HEAD && Deleted(m, rel) { PredPathKept(m, m', order, place, rel, n); }
  }

  /** After an insert no unlinked node leads to the new node: it was off the list. */
  lemma InsertedAlone(m: seq<Node>, order: seq<nat>, place: seq<real>, n: nat, p: nat, s: nat)
    requires Settled(m, order, place) && HEAD < n < |m| && !Stands(m, order, n) && p in Ring(order) && s in Ring(order)
    ensures Valid(m, p) && Valid(m, s) && NoneLeads(InsertMem(m, n, p, s), n)
  {
    hide Bump, SetSucc, SetPred, Ring, Settled, OffList;
    OnListStands(m, order, place, p);
    OnListStands(m, order, place, s);
    var m' := InsertMem(m, n, p, s);
    forall x | HEAD < x < |m'| && Deleted(m', x) ensures m'[x].succ.a != n && m'[x].pred.a != n {
      assert x != n && x != p && x != s;
      NoLinkOff(m, order, place, n, x);
    }
  }

  /** A node that no unlinked node leads to is counted for its two links and its callers only. */
  lemma AloneCount(m: seq<Node>, order: seq<nat>, held: seq<nat>, place: seq<real>, n: nat)
    requires Represents(m, order, held, place) && n in order && NoneLeads(m, n)
    ensures Valid(m, n) && m[n].cnt == 2 + held[n]
  {
    hide Represents, NoneLeads;
    CountIsTwoIff(m, order, held, place, n);
  }

  /** Unlinking a node takes its two links away; what is left lets the wait for it end exactly then. */
  lemma WaitEndsIff(m: seq<Node>, order: seq<nat>, held: seq<nat>, place: seq<real>, n: nat)
    requires Represents(m, order, held, place) && n in order && n < |held| && held[n] >= 1
    ensures Valid(m, n) && (m[n].cnt - 2 <= 1 <==> held[n] == 1 && NoneLeads(m, n))
  {
    hide Represents, NoneLeads;
    ListedCount(m, order, held, place, n);
  }

  /** n is off the list and carries the insert lock. */
  ghost predicate Barred(m: seq<Node>, order: seq<nat>, n: nat) {
    HEAD < n < |m| && n !in order && OffList(m[n]) && m[n].succ.fl
  }

  lemma OnListStands(m: seq<Node>, order: seq<nat>, place: seq<real>, x: nat)
    requires Settled(m, order, place) && x in Ring(order)
    ensures Stands(m, order, x) && !Deleted(m, x)
  {
    LiveRing(m, order, x);
  }

  /** A node p that leads to s is unlinked, or on the list right before s. */
  lemma AdjacentAfter(m: seq<Node>, order: seq<nat>, place: seq<real>, p: nat, s: nat) returns (k: nat)
    requires Settled(m, order, place) && Stands(m, order, p)
    requires forall j :: 0 <= j <= |order| && Ring(order)[j] == p ==> s == Ring(order)[j + 1]
    ensures Adjacent(order, p, s) <==> !Deleted(m, p)
    ensures k <= |order| && (!Deleted(m, p) ==> Ring(order)[k] == p && Ring(order)[k + 1] == s)
    ensures forall j :: 0 <= j <= |order| && Ring(order)[j] == p ==> j == k && !Deleted(m, p)
  {
    hide Ring, Sorted, RestOk;
    forall j | 0 <= j <= |order| && Ring(order)[j] == p ensures !Deleted(m, p) {
      assert p in Ring(order);
      LiveRing(m, order, p);
    }
    k := 0;
    if !Deleted(m, p) {
      k := RingIndex(order, place, p);
      assert Ring(order)[k] == p && Ring(order)[k + 1] == s;
    }
  }

  lemma AdjacentBefore(m: seq<Node>, order: seq<nat>, place: seq<real>, p: nat, s: nat) returns (k: nat)
    requires Settled(m, order, place) && Stands(m, order, s)
    requires forall j :: 0 <= j <= |order| && Ring(order)[j + 1] == s ==> p == Ring(order)[j]
    ensures Adjacent(order, p, s) <==> !Deleted(m, s)
    ensures k <= |order| && (!Deleted(m, s) ==> Ring(order)[k] == p && Ring(order)[k + 1] == s)
    ensures forall j :: 0 < j <= |order| + 1 && Ring(order)[j] == s ==> j == k + 1 && !Deleted(m, s)
  {
    hide Ring, Sorted, RestOk;
    forall j | 0 <= j < |Ring(order)| && Ring(order)[j] == s ensures !Deleted(m, s) {
      assert s in Ring(order);
      LiveRing(m, order, s);
    }
    RingDistinct(order, place);
    k := 0;
    if !Deleted(m, s) {
      k := RingIndex(order, place, s);
      k := if k == 0 then |order| else k - 1;
      assert Ring(order)[k + 1] == s && Ring(order)[k] == p;
    }
  }

  /** From m to m' the links of all nodes but n stay. */
  ghost predicate OthersKept(m: seq<Node>, m': seq<Node>, n: nat) {
    |m'| == |m| && forall x :: 0 <= x < |m| && x != n ==> m'[x].succ == m[x].succ && m'[x].pred == m[x].pred
  }

  lemma ReleasedNode(m: seq<Node>, n: nat, p: nat, s: nat, ins: bool)
    requires Valid(m, n) && Valid(m, p) && Valid(m, s) && n != p && n != s
    ensures OthersKept(m, ReleaseMem(m, n, p, s, ins), n)
    ensures ReleaseMem(m, n, p, s, ins)[n] == Node(Tag(NIL, ins), Tag(NIL, false), m[n].cnt)
  {
    hide Bump, SetPred, SetSucc;
  }

  /** From m to m' only counts change. */
  ghost predicate SameLinks(m: seq<Node>, m': seq<Node>) {
    |m'| == |m| && forall x :: 0 <= x < |m| ==> m'[x].succ == m[x].succ && m'[x].pred == m[x].pred
  }

  /** From m to m' only counts and the address in n->succ change. */
  ghost predicate SameButSucc(m: seq<Node>, m': seq<Node>, n: nat) {
    && |m'| == |m| && (forall x :: 0 <= x < |m| ==> m'[x].pred == m[x].pred)
    && (forall x :: 0 <= x < |m| && x != n ==> m'[x].succ == m[x].succ)
  }

  ghost predicate SameButPred(m: seq<Node>, m': seq<Node>, n: nat) {
    && |m'| == |m| && (forall x :: 0 <= x < |m| ==> m'[x].succ == m[x].succ && m'[x].pred.fl == m[x].pred.fl)
    && (forall x :: 0 <= x < |m| && x != n ==> m'[x].pred == m[x].pred)
  }

  lemma SuccMemLinks(m: seq<Node>, n: nat, path: seq<nat>)
    requires SuccChain(m, n, path)
    ensures SameButSucc(m, SuccMem(m, n, path), n)
  {
    hide Bump, SetSucc;
  }

  lemma PredMemLinks(m: seq<Node>, n: nat, path: seq<nat>)
    requires PredChain(m, n, path)
    ensures SameButPred(m, PredMem(m, n, path), n)
  {
    hide Bump, SetPred;
  }

  /** Where p stands: p is live and leads to s exactly when they are neighbours on the list, at k. */
  lemma StandsAt(m: seq<Node>, order: seq<nat>, held: seq<nat>, place: seq<real>, n: nat, p: nat, s: nat) returns (k: nat)
    requires Represents(m, order, held, place) && HEAD < n < |m| && n !in order && OffList(m[n])
    requires Stands(m, order, p) && Stands(m, order, s)
    ensures Valid(m, m[p].succ.a) && n != p && n != s && m[n].cnt >= 0 && m[p].cnt >= 0 && m[s].cnt >= 0 && m[m[p].succ.a].cnt >= 0
    ensures k <= |order|
    ensures (m[p].succ.a == s && !Deleted(m, p)) <==> Adjacent(order, p, s)
    ensures Adjacent(order, p, s) ==> Ring(order)[k] == p && Ring(order)[k + 1] == s && Neighbours(m, p, s)
    ensures forall j :: 0 <= j <= |order| && Ring(order)[j] == p && Ring(order)[j + 1] == s ==> j == k
  {
    hide Links, Sorted, Ring;
    LiveRing(m, order, HEAD);
    if p == HEAD || p in order {
      k := RingIndex(order, place, p);
      RingNeighbours(m, order, held, place, k);
    } else {
      k := 0;
      forall j | 0 <= j <= |order| ensures Ring(order)[j] != p {
        assert Ring(order)[j] in Ring(order);
      }
    }
  }

  /** A failed unlink leaves the list as it was. */
  lemma FailKeeps(m: seq<Node>, order: seq<nat>, held: seq<nat>, place: seq<real>, n: nat)
    requires Represents(m, order, held, place) && HEAD < n < |m| && Deleted(m, n)
    ensures var path := PrevPath(m, order, place, n);
            && PredChain(m, n, path) && path != [] && PredMem(m, n, path)[Last(path)].cnt >= 1
            && Represents(Bump(PredMem(m, n, path), Last(path), -1), order, held, place)
  {
    hide Bump, PredPath, PredChain, Settled, Links, PredMem, Ring;
    var path := PrevPath(m, order, place, n);
    PredRepresents(m, order, held, place, n);
    PrevChain(m, order, held, place, n);
    PredChainStart(m, n, path);
    HoldRepresents(PredMem(m, n, path), order, Take(held, path), place, Last(path), -1);
    assert Take(held, path)[Last(path) := held[Last(path)]] == held;
  }

  lemma SuccOne(m: seq<Node>, n: nat, s: nat)
    requires Valid(m, n) && Valid(m, s)
    ensures SuccMem(m, n, [s]) == Bump(m, s, 1)
  {
  }

  lemma PredOne(m: seq<Node>, n: nat, p: nat)
    requires Valid(m, n) && Valid(m, p)
    ensures PredMem(m, n, [p]) == Bump(m, p, 1)
  {
  }

  lemma UnlinkedNode(m: seq<Node>, n: nat, p: nat, s: nat)
    requires Valid(m, n) && Valid(m, p) && Valid(m, s) && p != n && s != n
    ensures Deleted(UnlinkMem(m, n, p, s), n) && UnlinkMem(m, n, p, s)[n].cnt == m[n].cnt - 2
  {
  }

  lemma FreshCounts(m: seq<Node>)
    requires |m| >= 2 && m[HEAD] == Node(Tag(HEAD, false), Tag(HEAD, false), 2)
    requires forall x :: 0 <= x < |m| && x != HEAD ==> m[x] == Node(Tag(NIL, false), Tag(NIL, false), 0)
    ensures CountOk(m, seq(|m|, _ => 0))
  {
    var none := seq(|m|, _ => NIL);
    assert Succs(m) == none[HEAD := HEAD] && Preds(m) == none[HEAD := HEAD];
    forall x: nat | Valid(m, x) ensures multiset(none)[x] == 0 {
      assert x !in none;
    }
  }

  class List {
    var mem: seq<Node>
    var size: int
    ghost var order: seq<nat>
    ghost var held: seq<nat>
    ghost var place: seq<real>

    ghost predicate Ok()
      reads this
    {
      Represents(mem, order, held, place) && size == |order|
    }

    /** LL_INIT of the head and LL_INIT_ENTRY of n further nodes. */
    constructor (n: nat)
      ensures Ok() && order == [] && |mem| == n + 2 && held == seq(n + 2, _ => 0)
      ensures forall x :: HEAD < x < n + 2 ==> mem[x] == Node(Tag(NIL, false), Tag(NIL, false), 0)
    {
      mem := seq(n + 2, i => if i == HEAD then Node(Tag(HEAD, false), Tag(HEAD, false), 2)
                             else Node(Tag(NIL, false), Tag(NIL, false), 0));
      size := 0;
      order := [];
      held := seq(n + 2, _ => 0);
      place := seq(n + 2, _ => 0.0);
      new;
      FreshCounts(mem);
    }

    method Acquire(n: nat)
      requires Valid(mem, n)
      modifies this`mem
      ensures mem == Bump(old(mem), n, 1)
    {
      mem := Bump(mem, n, 1);
    }

    /** deref_release; its assertion is the second precondition. */
    method Release(n: nat, k: nat)
      requires Valid(mem, n) && mem[n].cnt >= k
      modifies this`mem
      ensures mem == Bump(old(mem), n, 0 - k)
    {
      mem := Bump(mem, n, 0 - k);
    }

    /** deref of a link: take a reference unless it is NULL. */
    method Deref(t: Tag)
      requires t.a == NIL || Valid(mem, t.a)
      modifies this`mem
      ensures mem == if t.a == NIL then old(mem) else Bump(old(mem), t.a, 1)
    {
      if t.a != NIL { Acquire(t.a); }
    }

    /** succ(): along its path n->succ skips the deleted nodes. */
    method Succ(n: nat, ghost path: seq<nat>) returns (s: Tag)
      requires SuccChain(mem, n, path)
      modifies this`mem
      ensures mem == SuccMem(old(mem), n, path) && s == Tag(EndOf(path), old(mem)[n].succ.fl)
    {
      hide Bump, SetSucc;
      s := mem[n].succ;
      Deref(s);
      if s.a == NIL { return; }
      ghost var j := 0;
      while Deleted(mem, s.a)
        invariant j < |path| && s == Tag(path[j], old(mem)[n].succ.fl) && Valid(mem, s.a)
        invariant mem == SuccAt(old(mem), n, path, j)
        decreases |path| - j
      {
        var ss := Tag(mem[s.a].succ.a, s.fl);
        SuccHop(old(mem), n, path, j);
        Deref(ss);
        assert mem[n].succ == s;
        mem := SetSucc(mem, n, ss);
        Acquire(ss.a);
        Release(s.a, 2);
        s := ss;
        j := j + 1;
      }
    }

    /** pred(): n->pred moves along its path, back over deleted nodes or forward over live ones. */
    method Pred(n: nat, ghost path: seq<nat>) returns (r: Tag)
      requires PredWay(mem, n, path)
      modifies this`mem
      ensures mem == PredMem(old(mem), n, path) && r == Tag(EndOf(path), old(mem)[n].pred.fl)
    {
      hide Bump, SetPred, PredWay, ForwardChain, PredAt;
      ghost var m0, j := mem, 0;
      PredWayStart(m0, n, path);
      var p := mem[n].pred;
      Deref(p);
      if p.a == NIL { return p; }
      assert mem == PredAt(m0, n, path, 0) by { hide *; PredAtStart(m0, n, path); }
      while true
        invariant j < |path| && p.a == path[j] && mem == PredAt(m0, n, path, j) && |mem| == |m0|
        invariant if j == 0 then p == m0[n].pred else p.fl && !ForwardChain(m0, n, path)
        decreases |path| - j
      {
        if !p.fl {
          p := SearchForward(n, m0, path);
          if ForwardChain(m0, n, path) { j := |path| - 1; }
        }
        PredAtLinks(m0, n, path, j);
        if !Deleted(mem, p.a) {
          PredWayEnd(m0, n, path, j);
          break;
        }
        PredWayBack(m0, n, path, j);
        PredHop(m0, n, path, j);
        var pp := mem[p.a].pred;
        Deref(pp);
        assert mem[n].pred == p;
        mem := SetPred(mem, n, Tag(pp.a, p.fl));
        Acquire(pp.a);
        Release(p.a, 2);
        p := pp;
        j := j + 1;
      }
      r := Tag(p.a, mem[n].pred.fl);
    }

    /** The inner loop of pred(), which began in m0: move n->pred forward until its successor is n. */
    method SearchForward(n: nat, ghost m0: seq<Node>, ghost path: seq<nat>) returns (p: Tag)
      requires PredWay(m0, n, path) && path != [] && !m0[n].pred.fl && mem == PredAt(m0, n, path, 0)
      modifies this`mem
      ensures !ForwardChain(m0, n, path) ==> p == m0[n].pred && mem == old(mem)
      ensures ForwardChain(m0, n, path) ==> p == Tag(Last(path), false) && mem == PredMem(m0, n, path)
    {
      hide Bump, SetPred, PredWay, ForwardChain, PredAt, SuccChain;
      PredWayStart(m0, n, path);
      PredAtLinks(m0, n, path, 0);
      OnwardChain(m0, n, path, 0);
      p := mem[n].pred;
      ghost var j := 0;
      var ps := Succ(p.a, [if ForwardChain(m0, n, path) then Onward(n, path, 0) else n]);
      while ps.a != n && !p.fl
        invariant j < |path| && p == Tag(path[j], false)
        invariant ps.a == (if ForwardChain(m0, n, path) then Onward(n, path, j) else n)
        invariant Valid(m0, ps.a) && mem == Bump(PredAt(m0, n, path, j), ps.a, 1) && PredAt(m0, n, path, j)[ps.a].cnt >= 0
        invariant ForwardChain(m0, n, path) || j == 0
        decreases |path| - j
      {
        OnwardChain(m0, n, path, j);
        PredHop(m0, n, path, j);
        PredAtLinks(m0, n, path, j);
        assert mem[n].pred == p;
        mem := SetPred(mem, n, Tag(ps.a, p.fl));
        Acquire(ps.a);
        Release(p.a, 2);
        p := Tag(ps.a, p.fl);
        j := j + 1;
        OnwardChain(m0, n, path, j);
        ps := Succ(p.a, [Onward(n, path, j)]);
      }
      OnwardChain(m0, n, path, j);
      Release(ps.a, 1);
    }

    // ----- References of callers -----

    /** A caller takes a reference to a node. */
    method Hold(n: nat)
      requires Ok() && Valid(mem, n)
      modifies this`mem, this`held
      ensures Ok() && held == old(held)[n := old(held)[n] + 1] && SameLinks(old(mem), mem)
    {
      hide Settled, CountOk, Bump;
      HoldRepresents(mem, order, held, place, n, 1);
      Acquire(n);
      held := held[n := held[n] + 1];
    }

    /** A caller gives a reference back. */
    method Drop(n: nat)
      requires Ok() && Valid(mem, n) && held[n] >= 1
      modifies this`mem, this`held
      ensures Ok() && held == old(held)[n := old(held)[n] - 1] && SameLinks(old(mem), mem) && mem[n].cnt == old(mem)[n].cnt - 1
    {
      hide Settled, Bump;
      HoldRepresents(mem, order, held, place, n, -1);
      Release(n, 1);
      held := held[n := held[n] - 1];
    }

    /** succ() for a caller who keeps the reference to the result. */
    method NextOf(n: nat) returns (s: nat)
      requires Ok() && Valid(mem, n)
      modifies this`mem, this`held
      ensures Ok() && s == EndOf(NextPath(old(mem), order, place, n))
      ensures held == Take(old(held), NextPath(old(mem), order, place, n))
      ensures SameButSucc(old(mem), mem, n) && (!Stands(old(mem), order, n) ==> mem == old(mem))
    {
      hide SuccPath, Settled, CountOk, Ring, Stands;
      ghost var path := NextPath(mem, order, place, n);
      SuccRepresents(mem, order, held, place, n);
      NextChain(mem, order, held, place, n);
      SuccMemLinks(mem, n, path);
      var t := Succ(n, path);
      s := t.a;
      held := Take(held, path);
    }

    /** pred() for a caller who keeps the reference to the result. */
    method PrevOf(n: nat) returns (p: nat)
      requires Ok() && Valid(mem, n)
      modifies this`mem, this`held
      ensures Ok() && p == EndOf(PrevPath(old(mem), order, place, n))
      ensures held == Take(old(held), PrevPath(old(mem), order, place, n))
      ensures SameButPred(old(mem), mem, n) && (!Stands(old(mem), order, n) ==> mem == old(mem))
    {
      hide PredPath, Settled, CountOk, Ring, Stands;
      ghost var path := PrevPath(mem, order, place, n);
      PredRepresents(mem, order, held, place, n);
      PrevChain(mem, order, held, place, n);
      PredMemLinks(mem, n, path);
      var t := Pred(n, path);
      p := t.a;
      held := Take(held, path);
    }

    // ----- Linking and unlinking -----

    /** insert_between: succeeds exactly for neighbours on the list, and otherwise puts everything back. */
    method InsertBetween(n: nat, p: nat, s: nat) returns (ok: bool)
      requires Ok() && HEAD < n < |mem| && n !in order && OffList(mem[n]) && mem[n].succ.fl
      requires Stands(mem, order, p) && Stands(mem, order, s)
      modifies this`mem, this`size, this`order, this`place
      ensures Ok() && |mem| == |old(mem)|
      ensures ok <==> Adjacent(old(order), p, s)
      ensures !ok ==> mem == old(mem) && order == old(order) && place == old(place)
      ensures ok ==> n in order && NoneLeads(mem, n)
      ensures forall k :: 0 <= k <= |old(order)| && Ring(old(order))[k] == p && Ring(old(order))[k + 1] == s ==>
                order == Insert(old(order), k, n)
    {
      hide Settled, CountOk, Ring, Insert, InsertMem, Midway;
      ghost var k := StandsAt(mem, order, held, place, n, p, s);
      ok := LinkBetween(n, p, s);
      if ok {
        InsertRepresents(old(mem), order, held, place, k, n);
        InsertRing(order, k, n);
        assert Ring(order)[k] in Ring(order) && Ring(order)[k + 1] in Ring(order);
        InsertedAlone(old(mem), order, place, n, p, s);
        order, place := Insert(order, k, n), Midway(place, n, p, s);
      }
    }

    /** What insert_between does to memory. */
    method LinkBetween(n: nat, p: nat, s: nat) returns (ok: bool)
      requires Valid(mem, n) && Valid(mem, p) && Valid(mem, s) && Valid(mem, mem[p].succ.a) && n != p && n != s
      requires mem[n].cnt >= 0 && mem[p].cnt >= 0 && mem[s].cnt >= 0 && mem[mem[p].succ.a].cnt >= 0
      requires OffList(mem[n]) && mem[n].succ.fl && (mem[p].succ.a == s && !Deleted(mem, p) ==> Neighbours(mem, p, s))
      modifies this`mem, this`size
      ensures ok <==> old(mem)[p].succ.a == s && !Deleted(old(mem), p)
      ensures if ok then mem == InsertMem(old(mem), n, p, s) && size == old(size) + 1 else mem == old(mem) && size == old(size)
    {
      hide Bump, SetPred, SetSucc, InsertMem;
      ghost var m0 := mem;
      Acquire(p);
      Acquire(s);
      mem := SetSucc(mem, n, Tag(s, true));
      mem := SetPred(mem, n, Tag(p, false));
      var ps := mem[p].succ;
      assert ps == m0[p].succ;
      Deref(ps);
      if ps.a != s || Deleted(mem, p) {
        InsertUndone(m0, n, p, s, ps.a);
        mem := SetSucc(mem, n, Tag(NIL, true));
        mem := SetPred(mem, n, Tag(NIL, false));
        Release(p, 1);
        Release(s, 1);
        Release(ps.a, 1);
        return false;
      }
      Join(n, p, s, ps, m0);
      ok := true;
    }

    /** insert_between once p->succ has been found to lead to s. */
    method Join(n: nat, p: nat, s: nat, ps: Tag, ghost m0: seq<Node>)
      requires Valid(m0, n) && Neighbours(m0, p, s) && n != p && n != s && OffList(m0[n]) && m0[n].cnt >= 0 && ps == m0[p].succ
      requires mem == Bump(SetPred(SetSucc(Bump(Bump(m0, p, 1), s, 1), n, Tag(s, true)), n, Tag(p, false)), s, 1)
      modifies this`mem, this`size
      ensures mem == InsertMem(m0, n, p, s) && size == old(size) + 1
    {
      hide Bump, SetPred, SetSucc, PredMem, InsertMem;
      HalfInsert(m0, n, p, s);
      FullInsert(m0, n, p, s);
      mem := SetSucc(mem, p, Tag(n, ps.fl));
      Acquire(n);
      Release(ps.a, 2);
      assert mem == HalfInsertMem(m0, n, p, s);
      var r := Pred(s, [p, n]);
      Release(r.a, 1);
      size := size + 1;
      mem := SetSucc(mem, n, Tag(mem[n].succ.a, false));
    }

    /** llll_unlink; the caller holds a reference to n.  It fails on a node that is off the list or already unlinked. */
    method Unlink(n: nat) returns (ok: bool)
      requires Ok() && HEAD < n < |mem| && held[n] >= 1
      modifies this`mem, this`size, this`order
      ensures Ok() && |mem| == |old(mem)|
      ensures ok <==> n in old(order)
      ensures !ok ==> order == old(order) && SameButPred(old(mem), mem, n) && (!Deleted(old(mem), n) ==> mem == old(mem))
      ensures ok ==> Deleted(mem, n) && mem[n].cnt == old(mem)[n].cnt - 2
      ensures forall k :: 0 <= k < |old(order)| && old(order)[k] == n ==> order == Remove(old(order), k)
    {
      hide Bump, Settled, CountOk, Ring, Remove, PredPath, PredChain, PredMem, Between;
      ListedNode(mem, order, place, n);
      if mem[n].succ.a == NIL {
        return false;
      }
      ghost var m0, path := mem, PrevPath(mem, order, place, n);
      PrevChain(mem, order, held, place, n);
      PredMemLinks(mem, n, path);
      PredChainStart(mem, n, path);
      assert PredWay(mem, n, path);
      var p := Pred(n, path);
      if p.fl {
        FailKeeps(m0, order, held, place, n);
        Release(p.a, 1);
        return false;
      }
      ghost var k :| 0 <= k < |order| && order[k] == n;
      OnRing(m0, order, place, k);
      OrderBetween(m0, order, held, place, k);
      assert path == [Ring(order)[k]];
      assert mem == Bump(m0, p.a, 1) by { hide *; PredOne(m0, n, p.a); }
      Detach(n, p.a, m0, k);
      ok := true;
    }

    /** llll_unlink from the marking on: p is the predecessor of n. */
    method Detach(n: nat, p: nat, ghost m0: seq<Node>, ghost k: nat)
      requires Represents(m0, order, held, place) && size == |order| && k < |order| && n == order[k] && n < |m0|
      requires held[n] >= 1 && p == Ring(order)[k] && Between(m0, p, n, Ring(order)[k + 2]) && mem == Bump(m0, p, 1)
      modifies this`mem, this`size, this`order
      ensures Ok() && order == Remove(old(order), k) && |mem| == |m0| && Deleted(mem, n) && mem[n].cnt == m0[n].cnt - 2
    {
      hide Bump, SetPred, SetSucc, Settled, CountOk, Ring, Remove, SuccMem, SuccChain, HalfUnlinkMem, Neighbours;
      ghost var s := Ring(order)[k + 2];
      SkipMarked(m0, p, n, s);
      HalfUnlinked(m0, p, n, s);
      mem := SetPred(mem, n, Tag(p, true));
      var r := Succ(p, [n, s]);
      Release(r.a, 1);
      Release(p, 1);
      size := size - 1;
      r := Succ(n, [s]);
      assert mem == Bump(HalfUnlinkMem(m0, p, n, s), s, 1) by { hide *; SuccOne(HalfUnlinkMem(m0, p, n, s), n, s); }
      Walk(n, r.a, m0, k);
    }

    /** The walk of llll_unlink from the successor i of n: repair the pred links that still lead to n. */
    method Walk(n: nat, i0: nat, ghost m0: seq<Node>, ghost k: nat)
      requires Represents(m0, order, held, place) && k < |order| && n == order[k] && n < |m0|
      requires held[n] >= 1 && Between(m0, Ring(order)[k], n, Ring(order)[k + 2]) && i0 == Ring(order)[k + 2]
      requires mem == Bump(HalfUnlinkMem(m0, Ring(order)[k], n, i0), i0, 1)
      modifies this`mem, this`order
      ensures Represents(mem, order, held, place) && order == Remove(old(order), k)
      ensures |mem| == |m0| && Deleted(mem, n) && mem[n].cnt == m0[n].cnt - 2
    {
      hide Bump, SetPred, SetSucc, Settled, CountOk, Ring, Remove, PredMem, SuccMem, UnlinkMem, HalfUnlinkMem, PredChain, SuccChain,
           ForwardChain, Counted, Neighbours;
      ghost var p, s, rest := Ring(order)[k], i0, Remove(order, k);
      OnRing(m0, order, place, k);
      OrderBetween(m0, order, held, place, k);
      HalfUnlinked(m0, p, n, s);
      ghost var u := UnlinkMem(m0, n, p, s);
      UnlinkRepresents(m0, order, held, place, k);
      UnlinkedNode(m0, n, p, s);
      RepairSuccessor(m0, p, n, s);
      var i := i0;
      ghost var j, repaired := k + 1, false;
      while mem[n].cnt > 1
        invariant 0 < j < |rest| + 2 && i == Ring(rest)[j] && Valid(mem, i) && |mem| == |m0|
        invariant !repaired ==> i == s && mem == Bump(HalfUnlinkMem(m0, p, n, s), s, 1)
        invariant repaired ==> mem == Bump(u, i, 1)
        decreases |rest| + 2 - j
      {
        WalkStep(u, rest, held, place, n, j);
        if mem[i].pred.a == n {
          var q := Pred(i, [n, p]);
          Release(q.a, 1);
        }
        repaired := true;
        if i == HEAD { break; }
        ghost var i0 := Ring(rest)[j + 1];
        var i' := Succ(i, [i0]);
        assert mem == Bump(Bump(u, i, 1), i0, 1) by { hide *; SuccOne(Bump(u, i, 1), i, i0); }
        Release(i, 1);
        i := i'.a;
        j := j + 1;
      }
      WalkStep(u, rest, held, place, n, j);
      Release(i, 1);
      assert mem == u;
      order := rest;
    }

    /** unlink_release once no reference but the caller's is left; with `ins` the caller keeps its reference. */
    method UnlinkRelease(n: nat, ins: bool)
      requires Ok() && Releasable(mem, held, n)
      modifies this`mem, this`held
      ensures Ok() && held == (if ins then old(held) else old(held)[n := 0]) && OthersKept(old(mem), mem, n)
      ensures mem[n] == Node(Tag(NIL, ins), Tag(NIL, false), if ins then 1 else 0)
    {
      hide Bump, SetPred, SetSucc, Settled, Links;
      ReleaseRepresents(mem, order, held, place, n, ins);
      var s, p := mem[n].succ.a, mem[n].pred.a;
      ReleasedNode(mem, n, p, s, ins);
      mem := SetSucc(mem, n, Tag(NIL, ins));
      Release(s, 1);
      mem := SetPred(mem, n, Tag(NIL, false));
      Release(p, 1);
      assert mem == ReleaseMem(old(mem), n, p, s, ins);
      if !ins {
        Drop(n);
      }
    }

    /** unlink_release(n, 1) when `wait` is set, insert_lock(n) otherwise. */
    method LockForInsert(n: nat, wait: bool) returns (ok: bool)
      requires Ok() && HEAD < n < |mem| && (wait ==> Releasable(mem, held, n))
      modifies this`mem, this`held
      ensures Ok() && held == old(held) && OthersKept(old(mem), mem, n)
      ensures ok <==> wait || (n !in order && !Deleted(old(mem), n) && !old(mem)[n].succ.fl)
      ensures ok ==> n !in order && OffList(mem[n]) && mem[n].succ.fl
      ensures !ok ==> mem == old(mem)
    {
      hide Bump, SetPred, SetSucc, Settled, CountOk;
      if wait {
        DeletedIsGone(mem, order, place, n);
        UnlinkRelease(n, true);
        ok := true;
      } else {
        ListedNode(mem, order, place, n);
        ok := mem[n].succ == Tag(NIL, false);
        if ok {
          LockRepresents(mem, order, held, place, n);
          mem := SetSucc(mem, n, Tag(NIL, true));
        }
      }
    }

    /** One attempt of ll_insert_after: succ(p), then insert_between. */
    method TryAfter(n: nat, p: nat) returns (ok: bool, s: nat)
      requires Ok() && Barred(mem, order, n) && Stands(mem, order, p)
      modifies this
      ensures Ok() && |mem| == |old(mem)| && Valid(mem, s) && held == old(held)[s := old(held)[s] + 1]
      ensures ok <==> !Deleted(old(mem), p)
      ensures !ok ==> order == old(order) && place == old(place) && SameButSucc(old(mem), mem, p)
      ensures ok ==> InsertedBehind(old(order), order, n, p) && n in order && NoneLeads(mem, n)
    {
      hide Settled, CountOk, Ring, Insert, SuccPath, NextPath, SuccChain, Adjacent;
      NextChain(mem, order, held, place, p);
      ghost var path := NextPath(mem, order, place, p);
      s := NextOf(p);
      OnListStands(mem, order, place, s);
      ghost var k := AdjacentAfter(old(mem), order, place, p, s);
      ok := InsertBetween(n, p, s);
    }

    /** One attempt of ll_insert_before: pred(s), then insert_between. */
    method TryBefore(n: nat, s: nat) returns (ok: bool, p: nat)
      requires Ok() && Barred(mem, order, n) && Stands(mem, order, s)
      modifies this
      ensures Ok() && |mem| == |old(mem)| && Valid(mem, p) && held == old(held)[p := old(held)[p] + 1]
      ensures ok <==> !Deleted(old(mem), s)
      ensures !ok ==> order == old(order) && place == old(place) && SameButPred(old(mem), mem, s)
      ensures ok ==> InsertedBefore(old(order), order, n, s) && n in order && NoneLeads(mem, n)
    {
      hide Settled, CountOk, Ring, Insert, PredPath, PrevPath, PredChain, Adjacent;
      PrevChain(mem, order, held, place, s);
      ghost var path := PrevPath(mem, order, place, s);
      p := PrevOf(s);
      OnListStands(mem, order, place, p);
      ghost var k := AdjacentBefore(old(mem), order, place, p, s);
      ok := InsertBetween(n, p, s);
    }

    // ----- The public interface -----

    /**
     ll_insert_after: n comes right behind rel or, when rel is unlinked, behind the live node before it; `ok` is
     false and nothing changes if n is on the list, unlinked or barred.
     */
    method LlInsertAfter(n: nat, rel: nat, wait: bool) returns (ok: bool)
      requires Ok() && HEAD < n < |mem| && (wait ==> Releasable(mem, held, n))
      requires Stands(mem, order, rel) && rel != n
      modifies this
      ensures Ok() && held == old(held) && |mem| == |old(mem)|
      ensures ok <==> wait || (n !in old(order) && !Deleted(old(mem), n) && !old(mem)[n].succ.fl)
      ensures ok ==> mem[n].cnt == 2 + held[n]
      ensures !ok ==> mem == old(mem) && order == old(order)
      ensures ok ==> InsertedBehind(old(order), order, n, LandsAfter(old(mem), old(order), old(place), rel))
    {
      hide Bump, Settled, CountOk, Ring, Insert, PredPath, InsertedBehind, LandsAfter, SuccPath;
      ok := LockForInsert(n, wait);
      if ok {
        LandsAfterKept(old(mem), mem, order, place, rel, n);
        InsertBehind(n, rel);
      }
    }

    /** ll_insert_after once n is locked. */
    method InsertBehind(n: nat, rel: nat)
      requires Ok() && Barred(mem, order, n) && Stands(mem, order, rel)
      modifies this
      ensures Ok() && held == old(held) && |mem| == |old(mem)| && mem[n].cnt == 2 + held[n]
      ensures InsertedBehind(old(order), order, n, LandsAfter(old(mem), old(order), old(place), rel))
    {
      hide Bump, Settled, CountOk, Ring, Insert, InsertedBehind, PredPath;
      Hold(n);
      Hold(rel);
      LandsAfterSame(old(mem), mem, order, place, rel);
      var p := rel;
      var ok, s := TryAfter(n, p);
      while !ok
        invariant Ok() && |mem| == |old(mem)| && Valid(mem, n) && Valid(mem, p) && Valid(mem, s) && Held3(old(held), held, n, p, s)
        invariant !ok ==> p == rel && Deleted(mem, rel) && order == old(order) && place == old(place)
        invariant !ok ==> Barred(mem, order, n) && SamePreds(old(mem), mem)
        invariant ok ==> InsertedBehind(old(order), order, n, LandsAfter(old(mem), old(order), old(place), rel))
        invariant ok ==> n in order && NoneLeads(mem, n)
        decreases !ok
      {
        LandsAfterSame(old(mem), mem, order, place, rel);
        p := FixPred(p, s);
        ok, s := TryAfter(n, p);
      }
      Forget(n, p, s, old(held));
      AloneCount(mem, order, held, place, n);
    }

    /** The insertion is done: release n, p and s. */
    method Forget(n: nat, p: nat, s: nat, ghost before: seq<nat>)
      requires Ok() && Valid(mem, n) && Valid(mem, p) && Valid(mem, s) && Held3(before, held, n, p, s)
      modifies this`mem, this`held
      ensures Ok() && held == before && SameLinks(old(mem), mem)
    {
      hide Settled, CountOk;
      Drop(p);
      Drop(s);
      Drop(n);
      assert held == before;
    }

    /** After a failed attempt: forget s and, if p is deleted, go on from its predecessor. */
    method FixPred(p: nat, s: nat) returns (r: nat)
      requires Ok() && Stands(mem, order, p) && Valid(mem, s) && held[p] >= 1 && held[s] >= 1 && (p == s ==> held[p] >= 2)
      modifies this`mem, this`held
      ensures Ok() && SameButPred(old(mem), mem, p) && Stands(mem, order, r) && !Deleted(mem, r)
      ensures r == LandsAfter(old(mem), order, place, p) && |held| == |old(held)|
      ensures forall x :: 0 <= x < |held| ==> held[x] == old(held)[x] - One(s, x) - One(p, x) + One(r, x)
    {
      hide Settled, CountOk, Ring, PrevPath, PredPath, SuccPath, SamePreds;
      Drop(s);
      assert SamePreds(old(mem), mem) by { hide *; LinksSame(old(mem), mem); }
      LandsAfterSame(old(mem), mem, order, place, p);
      r := p;
      if Deleted(mem, p) {
        LandsOnList(mem, order, held, place, p);
        r := PrevOf(p);
        OnListStands(mem, order, place, r);
        Drop(p);
      }
    }

    /**
     ll_insert_before: n comes right before rel or, when rel is unlinked, before the live node behind it.
     */
    method LlInsertBefore(n: nat, rel: nat, wait: bool) returns (ok: bool)
      requires Ok() && HEAD < n < |mem| && (wait ==> Releasable(mem, held, n))
      requires Stands(mem, order, rel) && rel != n
      modifies this
      ensures Ok() && held == old(held) && |mem| == |old(mem)|
      ensures ok <==> wait || (n !in old(order) && !Deleted(old(mem), n) && !old(mem)[n].succ.fl)
      ensures ok ==> mem[n].cnt == 2 + held[n]
      ensures !ok ==> mem == old(mem) && order == old(order)
      ensures ok ==> InsertedBefore(old(order), order, n, LandsBefore(old(mem), old(order), old(place), rel))
    {
      hide Bump, Settled, CountOk, Ring, Insert, SuccPath, InsertedBefore;
      ok := LockForInsert(n, wait);
      if ok {
        LandsBeforeKept(old(mem), mem, order, place, rel, n);
        InsertAhead(n, rel);
      }
    }

    /** ll_insert_before once n is locked. */
    method InsertAhead(n: nat, rel: nat)
      requires Ok() && Barred(mem, order, n) && Stands(mem, order, rel)
      modifies this
      ensures Ok() && held == old(held) && |mem| == |old(mem)| && mem[n].cnt == 2 + held[n]
      ensures InsertedBefore(old(order), order, n, LandsBefore(old(mem), old(order), old(place), rel))
    {
      hide Bump, Settled, CountOk, Ring, Insert, InsertedBefore, SuccPath;
      Hold(n);
      Hold(rel);
      LandsBeforeSame(old(mem), mem, order, place, rel);
      var s := rel;
      var ok, p := TryBefore(n, s);
      while !ok
        invariant Ok() && |mem| == |old(mem)| && Valid(mem, n) && Valid(mem, p) && Valid(mem, s) && Held3(old(held), held, n, p, s)
        invariant !ok ==> s == rel && Deleted(mem, rel) && order == old(order) && place == old(place)
        invariant !ok ==> Barred(mem, order, n) && SameSuccs(old(mem), mem)
        invariant ok ==> InsertedBefore(old(order), order, n, LandsBefore(old(mem), old(order), old(place), rel))
        invariant ok ==> n in order && NoneLeads(mem, n)
        decreases !ok
      {
        LandsBeforeSame(old(mem), mem, order, place, rel);
        s := FixSucc(p, s);
        ok, p := TryBefore(n, s);
      }
      Forget(n, p, s, old(held));
      AloneCount(mem, order, held, place, n);
    }

    /** After a failed attempt: forget p and, if s is deleted, go on from its successor. */
    method FixSucc(p: nat, s: nat) returns (r: nat)
      requires Ok() && Stands(mem, order, s) && Valid(mem, p) && held[p] >= 1 && held[s] >= 1 && (p == s ==> held[p] >= 2)
      modifies this`mem, this`held
      ensures Ok() && SameButSucc(old(mem), mem, s) && Stands(mem, order, r) && !Deleted(mem, r)
      ensures r == LandsBefore(old(mem), order, place, s) && |held| == |old(held)|
      ensures forall x :: 0 <= x < |held| ==> held[x] == old(held)[x] - One(p, x) - One(s, x) + One(r, x)
    {
      hide Settled, CountOk, Ring, NextPath, PredPath, SuccPath, SameSuccs;
      Drop(p);
      assert SameSuccs(old(mem), mem) by { hide *; LinksSame(old(mem), mem); }
      LandsBeforeSame(old(mem), mem, order, place, s);
      r := s;
      if Deleted(mem, s) {
        LandsOnList(mem, order, held, place, s);
        r := NextOf(s);
        OnListStands(mem, order, place, r);
        Drop(s);
      }
    }

    /** ll_insert_head: the head is never deleted, so that the first attempt succeeds. */
    method LlInsertHead(n: nat, wait: bool) returns (ok: bool)
      requires Ok() && HEAD < n < |mem| && (wait ==> Releasable(mem, held, n))
      modifies this
      ensures Ok() && held == old(held) && |mem| == |old(mem)|
      ensures ok <==> wait || (n !in old(order) && !Deleted(old(mem), n) && !old(mem)[n].succ.fl)
      ensures ok ==> mem[n].cnt == 2 + held[n]
      ensures !ok ==> mem == old(mem)
      ensures order == if ok then [n] + old(order) else old(order)
    {
      hide Bump, Settled, CountOk, Ring, Insert;
      ok := LockForInsert(n, wait);
      if !ok { return; }
      OnListStands(mem, order, place, HEAD);
      Hold(n);
      var done, s := TryAfter(n, HEAD);
      Drop(s);
      Drop(n);
      assert held == old(held);
      assert Ring(old(order))[0] == HEAD;
      InsertEnds(old(order), n);
      AloneCount(mem, order, held, place, n);
    }

    /** ll_insert_tail. */
    method LlInsertTail(n: nat, wait: bool) returns (ok: bool)
      requires Ok() && HEAD < n < |mem| && (wait ==> Releasable(mem, held, n))
      modifies this
      ensures Ok() && held == old(held) && |mem| == |old(mem)|
      ensures ok <==> wait || (n !in old(order) && !Deleted(old(mem), n) && !old(mem)[n].succ.fl)
      ensures ok ==> mem[n].cnt == 2 + held[n]
      ensures !ok ==> mem == old(mem)
      ensures order == if ok then old(order) + [n] else old(order)
    {
      hide Bump, Settled, CountOk, Ring, Insert;
      ok := LockForInsert(n, wait);
      if !ok { return; }
      OnListStands(mem, order, place, HEAD);
      Hold(n);
      var done, p := TryBefore(n, HEAD);
      Drop(p);
      Drop(n);
      assert held == old(held);
      assert Ring(old(order))[|old(order)| + 1] == HEAD;
      InsertEnds(old(order), n);
      AloneCount(mem, order, held, place, n);
    }

    /**
     ll_unlink: removes exactly n and, with `wait`, consumes the caller's reference; NULL if n is not listed.  The wait
     ends if the caller's is the only reference held and no unlinked node leads to n (WaitEndsIff).
     */
    method LlUnlink(n: nat, wait: bool) returns (r: nat)
      requires Ok() && HEAD < n < |mem| && held[n] >= 1 && (wait && n in order ==> held[n] == 1 && NoneLeads(mem, n))
      modifies this
      ensures Ok() && |mem| == |old(mem)| && r == if n in old(order) then n else NIL
      ensures r == NIL ==> order == old(order) && held == old(held) && SameButPred(old(mem), mem, n)
      ensures r == NIL && !Deleted(old(mem), n) ==> mem == old(mem)
      ensures forall k :: 0 <= k < |old(order)| && old(order)[k] == n ==> order == Remove(old(order), k)
      ensures r == n && !wait ==> Deleted(mem, n) && held == old(held) && mem[n].cnt == old(mem)[n].cnt - 2
      ensures r == n && wait ==> mem[n] == Node(Tag(NIL, false), Tag(NIL, false), 0) && held == old(held)[n := 0]
    {
      hide Settled, CountOk, Remove, NoneLeads;
      if n in order { WaitEndsIff(mem, order, held, place, n); }
      var ok := Unlink(n);
      if !ok { return NIL; }
      if wait { UnlinkRelease(n, false); }
      r := n;
    }

    /** ll_unlink_release. */
    method LlUnlinkRelease(n: nat)
      requires Ok() && Releasable(mem, held, n)
      modifies this`mem, this`held
      ensures Ok() && held == old(held)[n := 0] && OthersKept(old(mem), mem, n)
      ensures mem[n] == Node(Tag(NIL, false), Tag(NIL, false), 0)
    {
      UnlinkRelease(n, false);
    }

    /** ll_unlink_robust: afterwards n is off the list and barred from it. */
    method LlUnlinkRobust(n: nat) returns (r: nat)
      requires Ok() && HEAD < n < |mem| && held[n] >= 1 && !Deleted(mem, n)
      requires if n in order then held[n] == 1 && NoneLeads(mem, n) else !mem[n].succ.fl
      modifies this
      ensures Ok() && |mem| == |old(mem)| && held == old(held)
      ensures r == if n in old(order) then n else NIL
      ensures Barred(mem, order, n)
      ensures n !in old(order) ==> order == old(order)
      ensures forall k :: 0 <= k < |old(order)| && old(order)[k] == n ==> order == Remove(old(order), k)
    {
      hide Settled, CountOk, Remove, NoneLeads;
      var locked := LockForInsert(n, false);
      if locked { return NIL; }
      WaitEndsIff(mem, order, held, place, n);
      var ok := Unlink(n);
      DeletedIsGone(mem, order, place, n);
      UnlinkRelease(n, true);
      r := n;
    }

    /** ll_pop_front: removes and returns the first node, NULL on an empty list. */
    method LlPopFront(wait: bool) returns (n: nat)
      requires Ok() && (wait && order != [] ==> order[0] < |held| && held[order[0]] == 0 && NoneLeads(mem, order[0]))
      modifies this
      ensures Ok() && |mem| == |old(mem)|
      ensures old(order) == [] ==> n == NIL && order == [] && held == old(held)
      ensures old(order) != [] ==> HEAD < n < |mem| && n == old(order)[0] && order == old(order)[1..]
      ensures old(order) != [] && wait ==> held == old(held) && mem[n] == Node(Tag(NIL, false), Tag(NIL, false), 0)
      ensures old(order) != [] && !wait ==> Deleted(mem, n) && held == old(held)[n := old(held)[n] + 1]
    {
      hide Settled, CountOk, Ring, Remove, NoneLeads;
      RingEnds(mem, order, place);
      NextChain(mem, order, held, place, HEAD);
      n := NextOf(HEAD);
      if n == HEAD {
        Drop(HEAD);
        assert held == old(held);
        return NIL;
      }
      PopReady(old(mem), mem, order, place, n);
      var r := LlUnlink(n, wait);
      RemoveEnds(old(order));
      assert wait ==> held == old(held);
    }

    /** ll_pop_back: removes and returns the last node, NULL on an empty list. */
    method LlPopBack(wait: bool) returns (n: nat)
      requires Ok()
      requires wait && order != [] ==> var n := order[|order| - 1]; n < |held| && held[n] == 0 && NoneLeads(mem, n)
      modifies this
      ensures Ok() && |mem| == |old(mem)|
      ensures old(order) == [] ==> n == NIL && order == [] && held == old(held)
      ensures old(order) != [] ==> HEAD < n < |mem| && n == old(order)[|old(order)| - 1] && order == old(order)[..|old(order)| - 1]
      ensures old(order) != [] && wait ==> held == old(held) && mem[n] == Node(Tag(NIL, false), Tag(NIL, false), 0)
      ensures old(order) != [] && !wait ==> Deleted(mem, n) && held == old(held)[n := old(held)[n] + 1]
    {
      hide Settled, CountOk, Ring, Remove, NoneLeads;
      RingEnds(mem, order, place);
      PrevChain(mem, order, held, place, HEAD);
      n := PrevOf(HEAD);
      if n == HEAD {
        Drop(HEAD);
        assert held == old(held);
        return NIL;
      }
      PopReady(old(mem), mem, order, place, n);
      var r := LlUnlink(n, wait);
      RemoveEnds(old(order));
      assert wait ==> held == old(held);
    }

    /** ll_succ: the live node behind n, with a reference, or NULL at the end of the list and off the list. */
    method LlSucc(n: nat) returns (s: nat)
      requires Ok() && Valid(mem, n)
      modifies this`mem, this`held
      ensures Ok() && SameButSucc(old(mem), mem, n) && (!Stands(old(mem), order, n) ==> s == NIL)
      ensures forall k :: 0 <= k <= |order| && Ring(order)[k] == n ==> s == Element(Ring(order)[k + 1])
      ensures n != HEAD && Deleted(old(mem), n) ==> s == Element(LandsBefore(old(mem), order, place, n))
      ensures s < |mem| && held == if s == NIL then old(held) else old(held)[s := old(held)[s] + 1]
    {
      hide Settled, CountOk, Ring, SuccPath, SuccChain;
      NextChain(mem, order, held, place, n);
      s := NextOf(n);
      if s == HEAD {
        OnListStands(mem, order, place, HEAD);
        Drop(s);
        s := NIL;
      }
      if s != NIL { OnListStands(mem, order, place, s); }
      assert s == NIL ==> held == old(held);
    }

    /** ll_pred: the live node before n, with a reference, or NULL at the start of the list and off the list. */
    method LlPred(n: nat) returns (p: nat)
      requires Ok() && Valid(mem, n)
      modifies this`mem, this`held
      ensures Ok() && SameButPred(old(mem), mem, n) && (!Stands(old(mem), order, n) ==> p == NIL)
      ensures forall k :: 0 <= k <= |order| && Ring(order)[k + 1] == n ==> p == Element(Ring(order)[k])
      ensures n != HEAD && Deleted(old(mem), n) ==> p == Element(LandsAfter(old(mem), order, place, n))
      ensures p < |mem| && held == if p == NIL then old(held) else old(held)[p := old(held)[p] + 1]
    {
      hide Settled, CountOk, Ring, PredPath, PredChain;
      PrevChain(mem, order, held, place, n);
      p := PrevOf(n);
      if p == HEAD {
        OnListStands(mem, order, place, HEAD);
        Drop(p);
        p := NIL;
      }
      if p != NIL { OnListStands(mem, order, place, p); }
      assert p == NIL ==> held == old(held);
    }

    /** ll_size. */
    method LlSize() returns (k: int)
      requires Ok()
      ensures k == |order|
    {
      k := size;
    }

    /** ll_empty. */
    method LlEmpty() returns (b: bool)
      requires Ok()
      ensures b <==> order == []
    {
      RingEnds(mem, order, place);
      RingNeighbours(mem, order, held, place, 0);
      b := mem[HEAD].succ.a == HEAD;
    }
  }
}
