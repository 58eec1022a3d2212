/**
 The memory of the list of service/ll.c between operations that run one at a time: the nodes, what
 succ() and pred() do to them, and the sequence of nodes that they represent.

 The DEREF bit is set and cleared inside each helper, so between the statements of LlList it is
 never set; a link is an address with its FLAGGED bit.
 */
module LlShape {
  import opened LlTypes

  datatype Node = Node(succ: Tag, pred: Tag, cnt: int)

  // ----- Memory -----

  predicate Valid(m: seq<Node>, n: nat) { NIL < n < |m| }

  predicate Deleted(m: seq<Node>, n: nat)
    requires Valid(m, n)
  {
    m[n].pred.fl
  }

  function Bump(m: seq<Node>, n: nat, d: int): (r: seq<Node>)
    requires Valid(m, n)
    ensures |r| == |m|
    ensures forall x {:trigger r[x]} :: 0 <= x < |m| ==> r[x] == m[x].(cnt := m[x].cnt + d * One(n, x))
  {
    m[n := m[n].(cnt := m[n].cnt + d)]
  }

  function SetSucc(m: seq<Node>, n: nat, t: Tag): (r: seq<Node>)
    requires Valid(m, n)
    ensures |r| == |m|
    ensures forall x {:trigger r[x]} :: 0 <= x < |m| ==> r[x] == if x == n then m[x].(succ := t) else m[x]
  {
    m[n := m[n].(succ := t)]
  }

  function SetPred(m: seq<Node>, n: nat, t: Tag): (r: seq<Node>)
    requires Valid(m, n)
    ensures |r| == |m|
    ensures forall x {:trigger r[x]} :: 0 <= x < |m| ==> r[x] == if x == n then m[x].(pred := t) else m[x]
  {
    m[n := m[n].(pred := t)]
  }

  // ----- What succ() and pred() do to memory -----

  function Last(path: seq<nat>): nat
    requires path != []
  {
    path[|path| - 1]
  }

  /** The nodes of a path exist and no count is negative; a first node that is skipped is counted for the link to it. */
  ghost predicate Counted(m: seq<Node>, path: seq<nat>) {
    && (forall i :: 0 <= i < |path| ==> Valid(m, path[i]) && m[path[i]].cnt >= 0)
    && (|path| > 1 ==> m[path[0]].cnt >= 1)
  }

  /** From n->succ over deleted nodes to a live one; empty if n->succ is NULL. */
  ghost predicate SuccChain(m: seq<Node>, n: nat, path: seq<nat>) {
    Valid(m, n) && Counted(m, path) &&
    if path == [] then m[n].succ.a == NIL else
      && path[0] == m[n].succ.a && !Deleted(m, Last(path))
      && forall i :: 0 <= i < |path| - 1 ==> Deleted(m, path[i]) && path[i] != n && m[path[i]].succ.a == path[i + 1]
  }

  /**
   From n->pred over deleted nodes back to a live one.  The search forward does nothing: n is
   itself deleted, or its predecessor leads back to n and at most that one node is deleted.
   */
  ghost predicate PredChain(m: seq<Node>, n: nat, path: seq<nat>) {
    Valid(m, n) && Counted(m, path) &&
    if path == [] then m[n].pred.a == NIL else
      && path[0] == m[n].pred.a && !Deleted(m, Last(path))
      && (m[n].pred.fl || (|path| <= 2 && m[path[0]].succ.a == n && m[n].cnt >= 0))
      && forall i :: 0 <= i < |path| - 1 ==> Deleted(m, path[i]) && path[i] != n && m[path[i]].pred.a == path[i + 1]
  }

  /** From n->pred forward over live nodes to the one whose successor is n. */
  ghost predicate ForwardChain(m: seq<Node>, n: nat, path: seq<nat>) {
    Valid(m, n) && Counted(m, path) && path != [] && !m[n].pred.fl
    && path[0] == m[n].pred.a && m[Last(path)].succ.a == n && m[n].cnt >= 0
    && (forall i :: 0 <= i < |path| ==> !Deleted(m, path[i]))
    && (forall i :: 0 < i < |path| ==> path[i] != n)
    && (forall i :: 0 <= i < |path| - 1 ==> m[path[i]].succ.a == path[i + 1])
  }

  /** Memory once n->succ has moved to the j-th node of its path and the caller has a reference to that node. */
  function SuccAt(m: seq<Node>, n: nat, path: seq<nat>, j: nat): (r: seq<Node>)
    requires Valid(m, n) && j < |path| && Valid(m, path[0]) && Valid(m, path[j])
    ensures |r| == |m|
  {
    if j == 0 then Bump(m, path[0], 1)
    else Bump(Bump(SetSucc(m, n, Tag(path[j], m[n].succ.fl)), path[j], 2), path[0], -1)
  }

  function PredAt(m: seq<Node>, n: nat, path: seq<nat>, j: nat): (r: seq<Node>)
    requires Valid(m, n) && j < |path| && Valid(m, path[0]) && Valid(m, path[j])
    ensures |r| == |m|
  {
    if j == 0 then Bump(m, path[0], 1)
    else Bump(Bump(SetPred(m, n, Tag(path[j], m[n].pred.fl)), path[j], 2), path[0], -1)
  }

  function SuccMem(m: seq<Node>, n: nat, path: seq<nat>): (r: seq<Node>)
    requires Valid(m, n) && (path != [] ==> Valid(m, path[0]) && Valid(m, Last(path)))
    ensures |r| == |m|
  {
    if path == [] then m else SuccAt(m, n, path, |path| - 1)
  }

  function PredMem(m: seq<Node>, n: nat, path: seq<nat>): (r: seq<Node>)
    requires Valid(m, n) && (path != [] ==> Valid(m, path[0]) && Valid(m, Last(path)))
    ensures |r| == |m|
  {
    if path == [] then m else PredAt(m, n, path, |path| - 1)
  }

  function EndOf(path: seq<nat>): nat { if path == [] then NIL else Last(path) }

  /** One hop of succ() along its path. */
  lemma SuccHop(m: seq<Node>, n: nat, path: seq<nat>, j: nat)
    requires Valid(m, n) && Counted(m, path) && j + 1 < |path|
    ensures var got := Bump(SetSucc(Bump(SuccAt(m, n, path, j), path[j + 1], 1), n, Tag(path[j + 1], m[n].succ.fl)), path[j + 1], 1);
            got[path[j]].cnt >= 2 && Bump(got, path[j], -2) == SuccAt(m, n, path, j + 1)
  {
    hide Bump, SetSucc;
    if j > 0 { SuccHopOn(m, n, path[0], path[j], path[j + 1], m[n].succ.fl); }
  }

  lemma SuccHopOn(m: seq<Node>, n: nat, a: nat, b: nat, c: nat, fl: bool)
    requires Valid(m, n) && Valid(m, a) && Valid(m, b) && Valid(m, c) && m[a].cnt >= 1 && m[b].cnt >= 0
    ensures var now := Bump(Bump(SetSucc(m, n, Tag(b, fl)), b, 2), a, -1);
            var got := Bump(SetSucc(Bump(now, c, 1), n, Tag(c, fl)), c, 1);
            && got[b].cnt >= 2 && Bump(got, b, -2) == Bump(Bump(SetSucc(m, n, Tag(c, fl)), c, 2), a, -1)
  {
    hide Bump, SetSucc;
  }

  lemma PredHop(m: seq<Node>, n: nat, path: seq<nat>, j: nat)
    requires Valid(m, n) && Counted(m, path) && j + 1 < |path|
    ensures var got := Bump(SetPred(Bump(PredAt(m, n, path, j), path[j + 1], 1), n, Tag(path[j + 1], m[n].pred.fl)), path[j + 1], 1);
            got[path[j]].cnt >= 2 && Bump(got, path[j], -2) == PredAt(m, n, path, j + 1)
  {
    hide Bump, SetPred;
    if j > 0 { PredHopOn(m, n, path[0], path[j], path[j + 1], m[n].pred.fl); }
  }

  lemma PredHopOn(m: seq<Node>, n: nat, a: nat, b: nat, c: nat, fl: bool)
    requires Valid(m, n) && Valid(m, a) && Valid(m, b) && Valid(m, c) && m[a].cnt >= 1 && m[b].cnt >= 0
    ensures var now := Bump(Bump(SetPred(m, n, Tag(b, fl)), b, 2), a, -1);
            var got := Bump(SetPred(Bump(now, c, 1), n, Tag(c, fl)), c, 1);
            && got[b].cnt >= 2 && Bump(got, b, -2) == Bump(Bump(SetPred(m, n, Tag(c, fl)), c, 2), a, -1)
  {
    hide Bump, SetPred;
  }

  // ----- References -----

  ghost function Succs(m: seq<Node>): (a: seq<nat>)
    ensures |a| == |m| && forall x :: 0 <= x < |m| ==> a[x] == m[x].succ.a
  {
    seq(|m|, x requires 0 <= x < |m| => m[x].succ.a)
  }

  ghost function Preds(m: seq<Node>): (a: seq<nat>)
    ensures |a| == |m| && forall x :: 0 <= x < |m| ==> a[x] == m[x].pred.a
  {
    seq(|m|, x requires 0 <= x < |m| => m[x].pred.a)
  }

  /** How many links lead to x. */
  ghost function Links(m: seq<Node>, x: nat): nat { multiset(Succs(m))[x] + multiset(Preds(m))[x] }

  /** A count is the number of references that callers hold and of links that lead to the node. */
  ghost predicate CountOk(m: seq<Node>, held: seq<nat>) {
    |m| == |held| && forall x: nat :: Valid(m, x) ==> m[x].cnt == held[x] + Links(m, x)
  }

  lemma BumpLinks(m: seq<Node>, n: nat, d: int)
    requires Valid(m, n)
    ensures forall x :: Links(Bump(m, n, d), x) == Links(m, x)
  {
    assert Succs(Bump(m, n, d)) == Succs(m) && Preds(Bump(m, n, d)) == Preds(m);
  }

  lemma SuccLinks(m: seq<Node>, n: nat, t: Tag)
    requires Valid(m, n)
    ensures forall x :: Links(SetSucc(m, n, t), x) == Links(m, x) - One(m[n].succ.a, x) + One(t.a, x)
  {
    assert Succs(SetSucc(m, n, t)) == Succs(m)[n := t.a] && Preds(SetSucc(m, n, t)) == Preds(m);
  }

  lemma PredLinks(m: seq<Node>, n: nat, t: Tag)
    requires Valid(m, n)
    ensures forall x :: Links(SetPred(m, n, t), x) == Links(m, x) - One(m[n].pred.a, x) + One(t.a, x)
  {
    assert Preds(SetPred(m, n, t)) == Preds(m)[n := t.a] && Succs(SetPred(m, n, t)) == Succs(m);
  }

  /** A node without links to it is the target of no link, and two links count twice. */
  lemma LinksAt(m: seq<Node>, x: nat, p: nat, s: nat)
    requires p < |m| && s < |m|
    ensures Links(m, x) == 0 ==> m[p].succ.a != x && m[s].pred.a != x
    ensures Links(m, x) >= One(m[p].succ.a, x) + One(m[s].pred.a, x)
  {
    assert Succs(m)[p] in multiset(Succs(m)) && Preds(m)[s] in multiset(Preds(m));
  }

  // ----- The list -----

  /** The nodes around the ring, from the head back to the head. */
  function Ring(order: seq<nat>): (ring: seq<nat>)
    ensures |ring| == |order| + 2 && ring[0] == ring[|order| + 1] == HEAD
    ensures forall x {:trigger x in ring} :: x in ring <==> x == HEAD || x in order
  {
    [HEAD] + order + [HEAD]
  }

  ghost predicate Linked(m: seq<Node>, ring: seq<nat>) {
    && (forall i :: 0 <= i < |ring| ==> Valid(m, ring[i]))
    && (forall i :: 0 <= i < |ring| - 1 ==> m[ring[i]].succ == Tag(ring[i + 1], false))
    && (forall i :: 0 <= i < |ring| - 1 ==> m[ring[i + 1]].pred == Tag(ring[i], false))
  }

  /**
   Every node on the list, or unlinked and not yet released, has a place between 0 and 1.  The head
   stands at both ends: at 1 as a successor, at 0 as a predecessor.
   */
  ghost function Ahead(place: seq<real>, x: nat): real
    requires x < |place|
  {
    if x == HEAD then 1.0 else place[x]
  }

  ghost function Behind(place: seq<real>, x: nat): real
    requires x < |place|
  {
    if x == HEAD then 0.0 else place[x]
  }

  /** The list is in the order of the places. */
  ghost predicate Sorted(order: seq<nat>, place: seq<real>) {
    && (forall i :: 0 <= i < |order| ==> HEAD < order[i] < |place| && 0.0 < place[order[i]] < 1.0)
    && (forall i, j :: 0 <= i < j < |order| ==> place[order[i]] < place[order[j]])
  }

  /** A node off the list has NULL links; its succ may carry the insert lock. */
  predicate OffList(e: Node) { e.pred == Tag(NIL, false) && e.succ.a == NIL }

  /** x is the head, on the list, or unlinked and not yet released. */
  ghost predicate Stands(m: seq<Node>, order: seq<nat>, x: nat) {
    Valid(m, x) && (x == HEAD || x in order || Deleted(m, x))
  }

  /** An unlinked node is marked; its links lead forward and back to nodes that still stand. */
  ghost predicate GoneAt(m: seq<Node>, order: seq<nat>, place: seq<real>, x: nat)
    requires Valid(m, x) && |place| == |m|
  {
    && 0.0 < place[x] < 1.0 && !m[x].succ.fl
    && Stands(m, order, m[x].succ.a) && place[x] < Ahead(place, m[x].succ.a)
    && Stands(m, order, m[x].pred.a) && Behind(place, m[x].pred.a) < place[x]
  }

  /** Every other node is off the list or unlinked; index NIL, which stands for no node, has no links. */
  ghost predicate RestOk(m: seq<Node>, order: seq<nat>, place: seq<real>) {
    0 < |m| == |place| && OffList(m[NIL]) &&
    forall x :: HEAD < x < |m| && x !in order ==>
      if Deleted(m, x) then GoneAt(m, order, place, x) else OffList(m[x])
  }

  /** The ring is linked in the order of the places and every other node is off the list or unlinked. */
  ghost predicate Settled(m: seq<Node>, order: seq<nat>, place: seq<real>) {
    Linked(m, Ring(order)) && Sorted(order, place) && RestOk(m, order, place)
  }

  /** The memory m represents the list `order` while callers hold `held[x]` references to each node x. */
  ghost predicate Represents(m: seq<Node>, order: seq<nat>, held: seq<nat>, place: seq<real>) {
    |held| == |m| == |place| && Settled(m, order, place) && CountOk(m, held)
  }

  /** The list head is not an element of the list: it is reported as NULL. */
  function Element(x: nat): nat { if x == HEAD then NIL else x }

  /** Around the ring every node occurs once as a predecessor and once as a successor. */
  lemma RingDistinct(order: seq<nat>, place: seq<real>)
    requires Sorted(order, place)
    ensures var ring := Ring(order);
            && (forall i, j :: 0 <= i < j < |ring| - 1 ==> ring[i] != ring[j])
            && (forall i, j :: 0 < i < j < |ring| ==> ring[i] != ring[j])
  {
  }

  lemma RingPlaces(m: seq<Node>, order: seq<nat>, place: seq<real>, k: nat)
    requires Settled(m, order, place) && k <= |order|
    ensures var p, s := Ring(order)[k], Ring(order)[k + 1];
            |place| == |m| && p < |place| && s < |place| && 0.0 <= Behind(place, p) < Ahead(place, s) <= 1.0
  {
  }

  lemma LiveRing(m: seq<Node>, order: seq<nat>, x: nat)
    requires Linked(m, Ring(order)) && x in Ring(order)
    ensures Valid(m, x) && !Deleted(m, x)
  {
    var ring := Ring(order);
    var i :| 0 <= i < |ring| && ring[i] == x;
    var j := if i == 0 then |order| + 1 else i;
    assert ring[j] == x && m[ring[j]].pred == Tag(ring[j - 1], false);
  }

  // ----- Where an unlinked node leads -----

  ghost function Later(m: seq<Node>, place: seq<real>, x: nat): set<nat>
    requires |place| == |m| && x < |m|
  {
    set y | HEAD < y < |m| && Deleted(m, y) && place[y] > place[x]
  }

  ghost function Earlier(m: seq<Node>, place: seq<real>, x: nat): set<nat>
    requires |place| == |m| && x < |m|
  {
    set y | HEAD < y < |m| && Deleted(m, y) && place[y] < place[x]
  }

  /** The nodes that succ() visits from an unlinked node. */
  ghost function SuccPath(m: seq<Node>, order: seq<nat>, place: seq<real>, x: nat): (path: seq<nat>)
    requires Settled(m, order, place) && HEAD < x < |m| && Deleted(m, x)
    ensures path != [] && path[0] == m[x].succ.a && Last(path) in Ring(order)
    ensures forall i :: 0 <= i < |path| ==> Valid(m, path[i]) && place[x] < Ahead(place, path[i])
    ensures forall i :: 0 <= i < |path| - 1 ==> Deleted(m, path[i]) && m[path[i]].succ.a == path[i + 1]
    decreases Later(m, place, x)
  {
    assert GoneAt(m, order, place, x) by { DeletedIsGone(m, order, place, x); }
    var s := m[x].succ.a;
    if Deleted(m, s) then
      assert s != HEAD by { LiveRing(m, order, HEAD); }
      assert s in Later(m, place, x) && s !in Later(m, place, s);
      [s] + SuccPath(m, order, place, s)
    else [s]
  }

  ghost function PredPath(m: seq<Node>, order: seq<nat>, place: seq<real>, x: nat): (path: seq<nat>)
    requires Settled(m, order, place) && HEAD < x < |m| && Deleted(m, x)
    ensures path != [] && path[0] == m[x].pred.a && Last(path) in Ring(order)
    ensures forall i :: 0 <= i < |path| ==> Valid(m, path[i]) && Behind(place, path[i]) < place[x]
    ensures forall i :: 0 <= i < |path| - 1 ==> Deleted(m, path[i]) && m[path[i]].pred.a == path[i + 1]
    decreases Earlier(m, place, x)
  {
    assert GoneAt(m, order, place, x) by { DeletedIsGone(m, order, place, x); }
    var p := m[x].pred.a;
    if Deleted(m, p) then
      assert p != HEAD by { LiveRing(m, order, HEAD); }
      assert p in Earlier(m, place, x) && p !in Earlier(m, place, p);
      [p] + PredPath(m, order, place, p)
    else [p]
  }

  lemma DeletedIsGone(m: seq<Node>, order: seq<nat>, place: seq<real>, x: nat)
    requires Settled(m, order, place) && HEAD < x < |m| && Deleted(m, x)
    ensures x !in order && GoneAt(m, order, place, x)
  {
    if x in order { LiveRing(m, order, x); }
  }

  lemma SuccPathChain(m: seq<Node>, order: seq<nat>, held: seq<nat>, place: seq<real>, x: nat)
    requires Represents(m, order, held, place) && HEAD < x < |m| && Deleted(m, x)
    ensures SuccChain(m, x, SuccPath(m, order, place, x))
  {
    hide SuccPath, Sorted, Linked, Ring;
    var path := SuccPath(m, order, place, x);
    LiveRing(m, order, Last(path));
    LinksAt(m, path[0], x, x);
  }

  lemma PredPathChain(m: seq<Node>, order: seq<nat>, held: seq<nat>, place: seq<real>, x: nat)
    requires Represents(m, order, held, place) && HEAD < x < |m| && Deleted(m, x)
    ensures PredChain(m, x, PredPath(m, order, place, x))
  {
    hide PredPath, Sorted, Linked, Ring;
    var path := PredPath(m, order, place, x);
    LiveRing(m, order, Last(path));
    LinksAt(m, path[0], x, x);
  }

  /** An unlinked node leads to the same live successor while only links outside its path change. */
  lemma {:induction false} SuccPathKept(m: seq<Node>, m': seq<Node>, order: seq<nat>, place: seq<real>, x: nat, n: nat)
    requires Settled(m, order, place) && Settled(m', order, place) && HEAD < x < |m| && Deleted(m, x) && Deleted(m', x)
    requires !Stands(m', order, n) && x != n
    requires forall y: nat {:trigger m'[y]} :: Valid(m, y) && y != n ==> m'[y].succ.a == m[y].succ.a && m'[y].pred.fl == m[y].pred.fl
    ensures SuccPath(m', order, place, x) == SuccPath(m, order, place, x)
    decreases Later(m, place, x)
  {
    DeletedIsGone(m', order, place, x);
    DeletedIsGone(m, order, place, x);
    var s := m[x].succ.a;
    if !Deleted(m, s) {
    } else {
      LiveRing(m, order, HEAD);
      assert s in Later(m, place, x) && s !in Later(m, place, s);
      SuccPathKept(m, m', order, place, s, n);
    }
  }

  lemma {:induction false} PredPathKept(m: seq<Node>, m': seq<Node>, order: seq<nat>, place: seq<real>, x: nat, n: nat)
    requires Settled(m, order, place) && Settled(m', order, place) && HEAD < x < |m| && Deleted(m, x) && Deleted(m', x)
    requires !Stands(m', order, n) && x != n
    requires forall y: nat {:trigger m'[y]} :: Valid(m, y) && y != n ==> m'[y].pred == m[y].pred
    ensures PredPath(m', order, place, x) == PredPath(m, order, place, x)
    decreases Earlier(m, place, x)
  {
    DeletedIsGone(m', order, place, x);
    DeletedIsGone(m, order, place, x);
    var p := m[x].pred.a;
    if !Deleted(m, p) {
    } else {
      LiveRing(m, order, HEAD);
      assert p in Earlier(m, place, x) && p !in Earlier(m, place, p);
      PredPathKept(m, m', order, place, p, n);
    }
  }

  /** The live node before an unlinked node comes before the live node behind it. */
  lemma GoneBetween(m: seq<Node>, order: seq<nat>, place: seq<real>, x: nat) returns (i: nat, j: nat)
    requires Settled(m, order, place) && HEAD < x < |m| && Deleted(m, x)
    ensures i < j <= |order| + 1
    ensures Ring(order)[i] == Last(PredPath(m, order, place, x)) && Ring(order)[j] == Last(SuccPath(m, order, place, x))
  {
    hide SuccPath, PredPath, Linked;
    var p, s := Last(PredPath(m, order, place, x)), Last(SuccPath(m, order, place, x));
    assert Behind(place, p) < place[x] < Ahead(place, s);
    if p == HEAD { i := 0; } else { i :| 0 <= i < |order| && order[i] == p; i := i + 1; }
    if s == HEAD { j := |order| + 1; } else { j :| 0 <= j < |order| && order[j] == s; j := j + 1; }
  }

  // ----- What inserting, unlinking and releasing do to memory -----

  function InsertMem(m: seq<Node>, n: nat, p: nat, s: nat): (r: seq<Node>)
    requires Valid(m, n) && Valid(m, p) && Valid(m, s)
    ensures |r| == |m|
  {
    Bump(SetPred(SetSucc(SetPred(SetSucc(m, n, Tag(s, false)), n, Tag(p, false)), p, Tag(n, false)), s, Tag(n, false)), n, 2)
  }

  function UnlinkMem(m: seq<Node>, n: nat, p: nat, s: nat): (r: seq<Node>)
    requires Valid(m, n) && Valid(m, p) && Valid(m, s)
    ensures |r| == |m|
  {
    Bump(Bump(Bump(SetPred(SetSucc(SetPred(m, n, Tag(p, true)), p, Tag(s, false)), s, Tag(p, false)), n, -2), p, 1), s, 1)
  }

  function ReleaseMem(m: seq<Node>, n: nat, p: nat, s: nat, ins: bool): (r: seq<Node>)
    requires Valid(m, n) && Valid(m, p) && Valid(m, s)
    ensures |r| == |m|
  {
    Bump(Bump(SetPred(SetSucc(m, n, Tag(NIL, ins)), n, Tag(NIL, false)), s, -1), p, -1)
  }

  function Insert(order: seq<nat>, k: nat, n: nat): (r: seq<nat>)
    requires k <= |order|
    ensures |r| == |order| + 1
  {
    order[..k] + [n] + order[k..]
  }

  function Remove(order: seq<nat>, k: nat): (r: seq<nat>)
    requires k < |order|
    ensures |r| == |order| - 1
  {
    order[..k] + order[k + 1..]
  }

  /** The place of a node inserted between two neighbours. */
  ghost function Midway(place: seq<real>, n: nat, p: nat, s: nat): (r: seq<real>)
    requires n < |place| && p < |place| && s < |place|
    ensures |r| == |place|
  {
    place[n := (Behind(place, p) + Ahead(place, s)) / 2.0]
  }

  lemma InsertRing(order: seq<nat>, k: nat, n: nat)
    requires k <= |order|
    ensures Ring(Insert(order, k, n)) == Ring(order)[..k + 1] + [n] + Ring(order)[k + 1..]
    ensures forall x :: x in Ring(Insert(order, k, n)) <==> x == n || x in Ring(order)
    ensures forall x :: x in Insert(order, k, n) <==> x == n || x in order
  {
  }

  lemma InsertLinks(m: seq<Node>, order: seq<nat>, place: seq<real>, k: nat, n: nat)
    requires Sorted(order, place) && Linked(m, Ring(order)) && k <= |order| && HEAD < n < |m| && n !in order
    ensures Linked(InsertMem(m, n, Ring(order)[k], Ring(order)[k + 1]), Ring(Insert(order, k, n)))
  {
    hide InsertMem;
    var ring, new_ := Ring(order), Ring(Insert(order, k, n));
    var m' := InsertMem(m, n, ring[k], ring[k + 1]);
    RingDistinct(order, place);
    InsertRing(order, k, n);
    forall i | 0 <= i < |new_| - 1
      ensures m'[new_[i]].succ == Tag(new_[i + 1], false) && m'[new_[i + 1]].pred == Tag(new_[i], false)
    {
      if i < k {
        assert new_[i] == ring[i] && new_[i + 1] == ring[i + 1];
        InsertLinkKept(m, n, ring[k], ring[k + 1], ring[i], ring[i + 1]);
      } else if i > k + 1 {
        assert new_[i] == ring[i - 1] && new_[i + 1] == ring[i];
        InsertLinkKept(m, n, ring[k], ring[k + 1], ring[i - 1], ring[i]);
      } else {
        InsertLinksNew(m, n, ring[k], ring[k + 1]);
      }
    }
  }

  lemma InsertLinkKept(m: seq<Node>, n: nat, p: nat, s: nat, a: nat, b: nat)
    requires Valid(m, n) && Valid(m, p) && Valid(m, s) && Valid(m, a) && Valid(m, b) && a != n && b != n && a != p && b != s
    ensures var m' := InsertMem(m, n, p, s); m'[a].succ == m[a].succ && m'[b].pred == m[b].pred
  {
    hide Bump, SetPred, SetSucc;
  }

  lemma InsertLinksNew(m: seq<Node>, n: nat, p: nat, s: nat)
    requires Valid(m, n) && Valid(m, p) && Valid(m, s) && n != p && n != s
    ensures var m' := InsertMem(m, n, p, s);
            && m'[p].succ == Tag(n, false) && m'[n].pred == Tag(p, false) && m'[n].succ == Tag(s, false) && m'[s].pred == Tag(n, false)
  {
    hide Bump, SetPred, SetSucc;
  }

  lemma InsertSorted(m: seq<Node>, order: seq<nat>, place: seq<real>, k: nat, n: nat)
    requires Settled(m, order, place) && k <= |order| && HEAD < n < |m| && n !in order
    ensures Ring(order)[k] < |place| && Ring(order)[k + 1] < |place|
    ensures Sorted(Insert(order, k, n), Midway(place, n, Ring(order)[k], Ring(order)[k + 1]))
  {
    hide Linked, Sorted, RestOk, Insert, Midway;
    RingPlaces(m, order, place, k);
    SortedWith(order, place, k, n, Ring(order)[k], Ring(order)[k + 1]);
  }

  lemma SortedWith(order: seq<nat>, place: seq<real>, k: nat, n: nat, p: nat, s: nat)
    requires Sorted(order, place) && k <= |order| && HEAD < n < |place| && n !in order && p < |place| && s < |place|
    requires p == (if k == 0 then HEAD else order[k - 1]) && s == (if k == |order| then HEAD else order[k])
    requires 0.0 <= Behind(place, p) < Ahead(place, s) <= 1.0
    ensures Sorted(Insert(order, k, n), Midway(place, n, p, s))
  {
    var new_, place' := Insert(order, k, n), Midway(place, n, p, s);
    assert Behind(place, p) < place'[n] < Ahead(place, s);
    assert forall i :: 0 <= i < |new_| ==> new_[i] == if i < k then order[i] else if i == k then n else order[i - 1];
    forall i | 0 <= i < |new_| && i != k
      ensures HEAD < new_[i] < |place| && 0.0 < place'[new_[i]] < 1.0
      ensures if i < k then place'[new_[i]] < place'[n] else place'[n] < place'[new_[i]]
    {
      assert new_[i] in order;
      if i < k { assert k > 0 && place[order[i]] <= place[order[k - 1]]; }
      else { assert k < |order| && place[order[k]] <= place[order[i - 1]]; }
    }
  }

  lemma InsertRest(m: seq<Node>, order: seq<nat>, place: seq<real>, k: nat, n: nat, p: nat, s: nat)
    requires RestOk(m, order, place) && k <= |order| && HEAD < n < |m| && n !in order && OffList(m[n])
    requires Valid(m, p) && Valid(m, s) && p in Ring(order) && s in Ring(order)
    ensures RestOk(InsertMem(m, n, p, s), Insert(order, k, n), Midway(place, n, p, s))
  {
    hide Bump, SetPred, SetSucc, Insert, Ring;
    InsertRing(order, k, n);
    var m', order', place' := InsertMem(m, n, p, s), Insert(order, k, n), Midway(place, n, p, s);
    forall x | HEAD < x < |m'| && x !in order'
      ensures if Deleted(m', x) then GoneAt(m', order', place', x) else OffList(m'[x])
    {
      assert m'[x].succ == m[x].succ && m'[x].pred == m[x].pred && place'[x] == place[x];
    }
  }

  lemma InsertCounts(m: seq<Node>, held: seq<nat>, n: nat, p: nat, s: nat)
    requires CountOk(m, held) && Valid(m, n) && Valid(m, p) && Valid(m, s) && OffList(m[n]) && n != p && n != s
    requires m[p].succ.a == s && m[s].pred.a == p
    ensures CountOk(InsertMem(m, n, p, s), held)
  {
    hide Bump, SetPred, SetSucc, Links;
    var m1 := SetSucc(m, n, Tag(s, false));
    var m2 := SetPred(m1, n, Tag(p, false));
    var m3 := SetSucc(m2, p, Tag(n, false));
    var m4 := SetPred(m3, s, Tag(n, false));
    SuccLinks(m, n, Tag(s, false));
    PredLinks(m1, n, Tag(p, false));
    SuccLinks(m2, p, Tag(n, false));
    PredLinks(m3, s, Tag(n, false));
    BumpLinks(m4, n, 2);
  }

  lemma InsertRepresents(m: seq<Node>, order: seq<nat>, held: seq<nat>, place: seq<real>, k: nat, n: nat)
    requires Represents(m, order, held, place) && k <= |order|
    requires HEAD < n < |m| && n !in order && OffList(m[n])
    ensures Ring(order)[k] < |place| && Ring(order)[k + 1] < |place|
    ensures Represents(InsertMem(m, n, Ring(order)[k], Ring(order)[k + 1]), Insert(order, k, n), held,
                       Midway(place, n, Ring(order)[k], Ring(order)[k + 1]))
  {
    hide InsertMem, CountOk, RestOk, Insert, Midway;
    var ring := Ring(order);
    assert ring[k] in ring && ring[k + 1] in ring;
    InsertLinks(m, order, place, k, n);
    InsertSorted(m, order, place, k, n);
    InsertRest(m, order, place, k, n, ring[k], ring[k + 1]);
    InsertCounts(m, held, n, ring[k], ring[k + 1]);
  }

  lemma RemoveRing(order: seq<nat>, place: seq<real>, k: nat)
    requires k < |order| && Sorted(order, place)
    ensures Ring(Remove(order, k)) == Ring(order)[..k + 1] + Ring(order)[k + 2..]
    ensures forall x :: x in Ring(Remove(order, k)) <==> x != order[k] && x in Ring(order)
    ensures Sorted(Remove(order, k), place) && forall x :: x in Remove(order, k) <==> x != order[k] && x in order
  {
    assert Ring(order)[..k + 1] == [HEAD] + order[..k] && Ring(order)[k + 2..] == order[k + 1..] + [HEAD];
    assert order[k] > HEAD;
    RemoveSorted(order, place, k);
    RemoveMembers(order, place, k);
  }

  lemma RemoveSorted(order: seq<nat>, place: seq<real>, k: nat)
    requires k < |order| && Sorted(order, place)
    ensures Sorted(Remove(order, k), place)
  {
    assert forall i :: 0 <= i < |order| - 1 ==> Remove(order, k)[i] == order[if i < k then i else i + 1];
  }

  lemma RemoveMembers(order: seq<nat>, place: seq<real>, k: nat)
    requires k < |order| && Sorted(order, place)
    ensures forall x :: x in Remove(order, k) <==> x != order[k] && x in order
  {
    var order' := Remove(order, k);
    forall x | x in order && x != order[k] ensures x in order' {
      var i :| 0 <= i < |order| && order[i] == x;
      if i < k { assert order'[i] == x; } else { assert order'[i - 1] == x; }
    }
    forall x | x in order' ensures x in order && x != order[k] {
      var i :| 0 <= i < |order'| && order'[i] == x;
      assert x == order[if i < k then i else i + 1];
    }
  }

  lemma UnlinkLinks(m: seq<Node>, order: seq<nat>, place: seq<real>, k: nat)
    requires Sorted(order, place) && Linked(m, Ring(order)) && k < |order|
    ensures Linked(UnlinkMem(m, Ring(order)[k + 1], Ring(order)[k], Ring(order)[k + 2]), Ring(Remove(order, k)))
  {
    hide UnlinkMem;
    var ring, new_ := Ring(order), Ring(Remove(order, k));
    assert ring[k + 1] == order[k];
    var m' := UnlinkMem(m, ring[k + 1], ring[k], ring[k + 2]);
    RingDistinct(order, place);
    RemoveRing(order, place, k);
    forall i | 0 <= i < |new_| - 1
      ensures m'[new_[i]].succ == Tag(new_[i + 1], false) && m'[new_[i + 1]].pred == Tag(new_[i], false)
    {
      if i < k {
        assert new_[i] == ring[i] && new_[i + 1] == ring[i + 1];
        UnlinkLinkKept(m, ring[k + 1], ring[k], ring[k + 2], ring[i], ring[i + 1]);
      } else if i > k {
        assert new_[i] == ring[i + 1] && new_[i + 1] == ring[i + 2];
        UnlinkLinkKept(m, ring[k + 1], ring[k], ring[k + 2], ring[i + 1], ring[i + 2]);
      } else {
        UnlinkLinkNew(m, ring[k + 1], ring[k], ring[k + 2]);
      }
    }
  }

  lemma UnlinkLinkKept(m: seq<Node>, n: nat, p: nat, s: nat, a: nat, b: nat)
    requires Valid(m, n) && Valid(m, p) && Valid(m, s) && Valid(m, a) && Valid(m, b) && a != p && b != n && b != s
    ensures var m' := UnlinkMem(m, n, p, s); m'[a].succ == m[a].succ && m'[b].pred == m[b].pred
  {
    hide Bump, SetPred, SetSucc;
  }

  lemma UnlinkLinkNew(m: seq<Node>, n: nat, p: nat, s: nat)
    requires Valid(m, n) && Valid(m, p) && Valid(m, s)
    ensures var m' := UnlinkMem(m, n, p, s); m'[p].succ == Tag(s, false) && m'[s].pred == Tag(p, false)
  {
    hide Bump, SetPred, SetSucc;
  }

  lemma UnlinkRest(m: seq<Node>, order: seq<nat>, place: seq<real>, k: nat, n: nat, p: nat, s: nat)
    requires RestOk(m, order, place) && Sorted(order, place) && k < |order| && n == order[k] && n < |m|
    requires Valid(m, p) && Valid(m, s) && p in Ring(order) && s in Ring(order) && p != n && s != n
    requires m[n].succ == Tag(s, false) && Behind(place, p) < place[n] < Ahead(place, s)
    ensures RestOk(UnlinkMem(m, n, p, s), Remove(order, k), place)
  {
    hide Bump, SetPred, SetSucc, Remove, Ring;
    RemoveRing(order, place, k);
    var m', order' := UnlinkMem(m, n, p, s), Remove(order, k);
    assert m'[n].succ == Tag(s, false) && m'[n].pred == Tag(p, true);
    forall x | HEAD < x < |m'| && x !in order'
      ensures if Deleted(m', x) then GoneAt(m', order', place, x) else OffList(m'[x])
    {
      if x != n { assert m'[x].succ == m[x].succ && m'[x].pred == m[x].pred; }
    }
  }

  lemma UnlinkCounts(m: seq<Node>, held: seq<nat>, n: nat, p: nat, s: nat)
    requires CountOk(m, held) && Valid(m, n) && Valid(m, p) && Valid(m, s) && p != n && s != n
    requires m[n].pred.a == p && m[p].succ.a == n && m[s].pred.a == n
    ensures CountOk(UnlinkMem(m, n, p, s), held)
  {
    hide Bump, SetPred, SetSucc, Links;
    var m1 := SetPred(m, n, Tag(p, true));
    var m2 := SetSucc(m1, p, Tag(s, false));
    var m3 := SetPred(m2, s, Tag(p, false));
    PredLinks(m, n, Tag(p, true));
    SuccLinks(m1, p, Tag(s, false));
    PredLinks(m2, s, Tag(p, false));
    BumpLinks(m3, n, -2);
    BumpLinks(Bump(m3, n, -2), p, 1);
    BumpLinks(Bump(Bump(m3, n, -2), p, 1), s, 1);
  }

  lemma UnlinkRepresents(m: seq<Node>, order: seq<nat>, held: seq<nat>, place: seq<real>, k: nat)
    requires Represents(m, order, held, place) && k < |order|
    ensures Represents(UnlinkMem(m, Ring(order)[k + 1], Ring(order)[k], Ring(order)[k + 2]), Remove(order, k), held, place)
  {
    hide UnlinkMem, CountOk, RestOk, Remove;
    var ring := Ring(order);
    var n, p, s := ring[k + 1], ring[k], ring[k + 2];
    assert n == order[k];
    assert p in ring && s in ring;
    UnlinkLinks(m, order, place, k);
    RemoveRing(order, place, k);
    LinkedAt(m, order, place, k);
    RingPlaces(m, order, place, k);
    RingPlaces(m, order, place, k + 1);
    UnlinkRest(m, order, place, k, n, p, s);
    UnlinkCounts(m, held, n, p, s);
  }

  lemma LinkedAt(m: seq<Node>, order: seq<nat>, place: seq<real>, k: nat)
    requires Sorted(order, place) && Linked(m, Ring(order)) && k < |order|
    ensures var n, p, s := Ring(order)[k + 1], Ring(order)[k], Ring(order)[k + 2];
            m[n].succ == Tag(s, false) && m[n].pred == Tag(p, false) && m[p].succ == Tag(n, false) && m[s].pred == Tag(n, false)
            && p != n && s != n
  {
    assert Ring(order)[k + 1] == order[k];
    RingDistinct(order, place);
  }

  /** A node that no link leads to is released: it leaves the list and the nodes that its links led to. */
  lemma ReleaseRest(m: seq<Node>, order: seq<nat>, place: seq<real>, n: nat, ins: bool)
    requires RestOk(m, order, place) && HEAD < n < |m| && n !in order && Deleted(m, n) && Links(m, n) == 0
    requires Valid(m, m[n].pred.a) && Valid(m, m[n].succ.a)
    ensures RestOk(ReleaseMem(m, n, m[n].pred.a, m[n].succ.a, ins), order, place)
  {
    hide Bump, SetPred, SetSucc, Links;
    var m' := ReleaseMem(m, n, m[n].pred.a, m[n].succ.a, ins);
    forall x | HEAD < x < |m'| && x !in order
      ensures if Deleted(m', x) then GoneAt(m', order, place, x) else OffList(m'[x])
    {
      if x != n {
        assert m'[x].succ == m[x].succ && m'[x].pred == m[x].pred;
        LinksAt(m, n, x, x);
        if Deleted(m, x) {
          var s, p := m[x].succ.a, m[x].pred.a;
          assert m'[s].pred == m[s].pred && m'[p].pred == m[p].pred;
        }
      }
    }
  }

  lemma ReleaseCounts(m: seq<Node>, held: seq<nat>, n: nat, p: nat, s: nat, ins: bool)
    requires CountOk(m, held) && Valid(m, n) && Valid(m, p) && Valid(m, s) && m[n].pred.a == p && m[n].succ.a == s
    ensures CountOk(ReleaseMem(m, n, p, s, ins), held)
  {
    hide Bump, SetPred, SetSucc, Links;
    var m1 := SetSucc(m, n, Tag(NIL, ins));
    var m2 := SetPred(m1, n, Tag(NIL, false));
    SuccLinks(m, n, Tag(NIL, ins));
    PredLinks(m1, n, Tag(NIL, false));
    BumpLinks(m2, s, -1);
    BumpLinks(Bump(m2, s, -1), p, -1);
  }

  lemma ReleaseLinks(m: seq<Node>, order: seq<nat>, n: nat, p: nat, s: nat, ins: bool)
    requires Linked(m, Ring(order)) && Valid(m, n) && n !in Ring(order) && Valid(m, p) && Valid(m, s)
    ensures Linked(ReleaseMem(m, n, p, s, ins), Ring(order))
  {
    hide Bump, SetPred, SetSucc, Ring;
    var ring, m' := Ring(order), ReleaseMem(m, n, p, s, ins);
    forall i | 0 <= i < |ring| ensures ring[i] != n && m'[ring[i]].succ == m[ring[i]].succ && m'[ring[i]].pred == m[ring[i]].pred {
      assert ring[i] in ring;
    }
  }

  lemma ReleaseRepresents(m: seq<Node>, order: seq<nat>, held: seq<nat>, place: seq<real>, n: nat, ins: bool)
    requires Represents(m, order, held, place) && HEAD < n < |m| && Deleted(m, n) && m[n].cnt <= 1 <= held[n]
    ensures var p, s := m[n].pred.a, m[n].succ.a;
            && Valid(m, p) && Valid(m, s) && p != n && s != n && m[s].cnt >= 1 && Bump(m, s, -1)[p].cnt >= 1
            && Represents(ReleaseMem(m, n, p, s, ins), order, held, place)
  {
    hide ReleaseMem, RestOk, Linked, Ring, Links;
    DeletedIsGone(m, order, place, n);
    var p, s := m[n].pred.a, m[n].succ.a;
    LinksAt(m, n, n, n);
    LinksAt(m, s, n, n);
    LinksAt(m, p, n, n);
    ReleaseLinks(m, order, n, p, s, ins);
    ReleaseRest(m, order, place, n, ins);
    ReleaseCounts(m, held, n, p, s, ins);
  }

  // ----- Counts on the list -----

  lemma RingIndex(order: seq<nat>, place: seq<real>, n: nat) returns (k: nat)
    requires Sorted(order, place) && (n == HEAD || n in order)
    ensures k <= |order| && Ring(order)[k] == n
    ensures forall j :: 0 <= j <= |order| && Ring(order)[j] == n ==> j == k
  {
    RingDistinct(order, place);
    if n == HEAD { k := 0; } else {
      var i :| 0 <= i < |order| && order[i] == n;
      assert Ring(order)[i + 1] == n;
      k := i + 1;
    }
  }

  /** No unlinked node has a link to n. */
  ghost predicate NoneLeads(m: seq<Node>, n: nat) {
    forall x :: HEAD < x < |m| && Deleted(m, x) ==> m[x].succ.a != n && m[x].pred.a != n
  }

  /** The part of some links that belongs to unlinked nodes, and the part that does not; NIL elsewhere. */
  ghost function GonePart(m: seq<Node>, links: seq<nat>): (a: seq<nat>)
    requires |links| == |m|
    ensures |a| == |m| && forall x :: 0 <= x < |m| ==> a[x] == if m[x].pred.fl then links[x] else NIL
  {
    seq(|m|, x requires 0 <= x < |m| => if m[x].pred.fl then links[x] else NIL)
  }

  ghost function LivePart(m: seq<Node>, links: seq<nat>): (a: seq<nat>)
    requires |links| == |m|
    ensures |a| == |m| && forall x :: 0 <= x < |m| ==> a[x] == if m[x].pred.fl then NIL else links[x]
  {
    seq(|m|, x requires 0 <= x < |m| => if m[x].pred.fl then NIL else links[x])
  }

  /** How many links of unlinked nodes lead to n. */
  ghost function GoneLinks(m: seq<Node>, n: nat): nat {
    multiset(GonePart(m, Succs(m)))[n] + multiset(GonePart(m, Preds(m)))[n]
  }

  lemma {:induction false} TwoParts(all: seq<nat>, a: seq<nat>, b: seq<nat>, n: nat)
    requires |all| == |a| == |b| && n != NIL
    requires forall i :: 0 <= i < |all| ==> (a[i] == all[i] && b[i] == NIL) || (a[i] == NIL && b[i] == all[i])
    ensures multiset(all)[n] == multiset(a)[n] + multiset(b)[n]
  {
    if all == [] {
    } else {
      var k := |all| - 1;
      TwoParts(all[..k], a[..k], b[..k], n);
      assert all == all[..k] + [all[k]] && a == a[..k] + [a[k]] && b == b[..k] + [b[k]];
    }
  }

  lemma OccursOnce(a: seq<nat>, i: nat)
    requires i < |a| && forall j :: 0 <= j < |a| && j != i ==> a[j] != a[i]
    ensures multiset(a)[a[i]] == 1
  {
    assert a == a[..i] + [a[i]] + a[i + 1..];
    assert a[i] !in a[..i] && a[i] !in a[i + 1..];
  }

  /** Of the nodes that are not unlinked exactly one leads to a node of the ring by its succ, and one by its pred. */
  lemma LiveLinks(m: seq<Node>, order: seq<nat>, place: seq<real>, n: nat)
    requires Settled(m, order, place) && n in Ring(order)
    ensures multiset(LivePart(m, Succs(m)))[n] == 1 && multiset(LivePart(m, Preds(m)))[n] == 1
  {
    hide Sorted, RestOk, GoneAt;
    var k := RingIndex(order, place, n);
    var p := Ring(order)[if k == 0 then |order| else k - 1];
    var s := Ring(order)[k + 1];
    forall x | 0 <= x < |m| && !m[x].pred.fl
      ensures (m[x].succ.a == n <==> x == p) && (m[x].pred.a == n <==> x == s)
    {
      LiveLink(m, order, place, n, k, x);
    }
    assert Ring(order)[if k == 0 then |order| else k - 1] in Ring(order) && Ring(order)[k + 1] in Ring(order);
    LiveRing(m, order, p);
    LiveRing(m, order, s);
    assert n != NIL by { LiveRing(m, order, n); }
    OccursOnce(LivePart(m, Succs(m)), p);
    OccursOnce(LivePart(m, Preds(m)), s);
  }

  lemma LiveLink(m: seq<Node>, order: seq<nat>, place: seq<real>, n: nat, k: nat, x: nat)
    requires Settled(m, order, place) && k <= |order| && Ring(order)[k] == n && x < |m| && !m[x].pred.fl
    ensures m[x].succ.a == n <==> x == Ring(order)[if k == 0 then |order| else k - 1]
    ensures m[x].pred.a == n <==> x == Ring(order)[k + 1]
  {
    RingDistinct(order, place);
    var ring := Ring(order);
    var h := if k == 0 then |order| + 1 else k;
    assert ring[h] == n && ring[k] in ring;
    LiveRing(m, order, n);
    if x == HEAD || x in order {
      var i := RingIndex(order, place, x);
      var j := if i == 0 then |order| + 1 else i;
      assert m[ring[i]].succ == Tag(ring[i + 1], false) && m[ring[j - 1 + 1]].pred == Tag(ring[j - 1], false);
    } else {
      assert m[x].succ.a == NIL && m[x].pred.a == NIL;
      assert ring[h - 1] in ring && ring[k + 1] in ring;
    }
  }

  /** A linked node has its two links, the references of its callers, and the links of unlinked nodes. */
  lemma ListedCount(m: seq<Node>, order: seq<nat>, held: seq<nat>, place: seq<real>, n: nat)
    requires Represents(m, order, held, place) && n in Ring(order)
    ensures Valid(m, n) && m[n].cnt == 2 + held[n] + GoneLinks(m, n)
    ensures GoneLinks(m, n) == 0 <==> NoneLeads(m, n)
  {
    hide Sorted, RestOk, Linked, Ring, NoneLeads;
    LiveRing(m, order, n);
    LiveRing(m, order, HEAD);
    assert !m[NIL].pred.fl by { NilIsBlank(m, order, place); }
    LiveLinks(m, order, place, n);
    TwoParts(Succs(m), LivePart(m, Succs(m)), GonePart(m, Succs(m)), n);
    TwoParts(Preds(m), LivePart(m, Preds(m)), GonePart(m, Preds(m)), n);
    NoGoneLinks(m, n);
  }

  lemma NilIsBlank(m: seq<Node>, order: seq<nat>, place: seq<real>)
    requires Settled(m, order, place)
    ensures |m| > 0 && OffList(m[NIL])
  {
  }

  lemma NoGoneLinks(m: seq<Node>, n: nat)
    requires Valid(m, n) && Valid(m, HEAD) && !Deleted(m, HEAD) && !m[NIL].pred.fl
    ensures GoneLinks(m, n) == 0 <==> NoneLeads(m, n)
  {
    var a, b := GonePart(m, Succs(m)), GonePart(m, Preds(m));
    if GoneLinks(m, n) == 0 {
      forall x | HEAD < x < |m| && Deleted(m, x) ensures m[x].succ.a != n && m[x].pred.a != n {
        assert a[x] in multiset(a) && b[x] in multiset(b);
      }
    }
    if NoneLeads(m, n) {
      assert n !in a && n !in b;
    }
  }

  /** Exactly the nodes that no unlinked node leads to have a count of two and the held references. */
  lemma CountIsTwoIff(m: seq<Node>, order: seq<nat>, held: seq<nat>, place: seq<real>, n: nat)
    requires Represents(m, order, held, place) && n in Ring(order)
    ensures Valid(m, n) && (m[n].cnt == 2 + held[n] <==> NoneLeads(m, n))
  {
    hide Represents;
    ListedCount(m, order, held, place, n);
  }

  /** When nothing is unlinked every linked node has a count of two and the held references, any other the latter. */
  lemma CountsWhenReleased(m: seq<Node>, order: seq<nat>, held: seq<nat>, place: seq<real>, n: nat)
    requires Represents(m, order, held, place) && Valid(m, n)
    requires forall x :: HEAD < x < |m| ==> !Deleted(m, x)
    ensures m[n].cnt == held[n] + if n in Ring(order) then 2 else 0
  {
    if n in Ring(order) {
      CountIsTwoIff(m, order, held, place, n);
    } else {
      OffCount(m, order, held, place, n);
    }
  }

  /** No link leads to a node off the list. */
  lemma OffCount(m: seq<Node>, order: seq<nat>, held: seq<nat>, place: seq<real>, n: nat)
    requires Represents(m, order, held, place) && Valid(m, n) && !Stands(m, order, n)
    ensures m[n].cnt == held[n]
  {
    forall x | 0 <= x < |m| ensures m[x].succ.a != n && m[x].pred.a != n {
      NoLinkOff(m, order, place, n, x);
    }
    assert n !in Succs(m) && n !in Preds(m);
  }

  lemma NoLinkOff(m: seq<Node>, order: seq<nat>, place: seq<real>, n: nat, x: nat)
    requires Settled(m, order, place) && Valid(m, n) && !Stands(m, order, n) && x < |m|
    ensures m[x].succ.a != n && m[x].pred.a != n
  {
    if x == HEAD || x in order {
      var k := RingIndex(order, place, x);
      var ring := Ring(order);
      var j := if k == 0 then |order| + 1 else k;
      assert m[ring[k]].succ == Tag(ring[k + 1], false) && m[ring[j]].pred == Tag(ring[j - 1], false);
      assert ring[k + 1] in ring && ring[j - 1] in ring;
    }
  }

  // ----- The steps of the operations -----

  /** Two neighbours p and s on the list are live, point at each other and are counted. */
  ghost predicate Neighbours(m: seq<Node>, p: nat, s: nat) {
    && Valid(m, p) && Valid(m, s) && m[p].succ == Tag(s, false) && m[s].pred == Tag(p, false)
    && !Deleted(m, p) && !Deleted(m, s) && m[p].cnt >= 2 && m[s].cnt >= 2
  }

  lemma RingNeighbours(m: seq<Node>, order: seq<nat>, held: seq<nat>, place: seq<real>, k: nat)
    requires Represents(m, order, held, place) && k <= |order|
    ensures Neighbours(m, Ring(order)[k], Ring(order)[k + 1])
  {
    hide Ring, Sorted, RestOk, Links;
    var ring := Ring(order);
    assert ring[k] in ring && ring[k + 1] in ring;
    LiveRing(m, order, ring[k]);
    LiveRing(m, order, ring[k + 1]);
    var h := if k == 0 then |order| + 1 else k;
    var t := if k == |order| then 0 else k + 1;
    assert ring[h] == ring[k] && m[ring[h - 1]].succ.a == ring[h];
    assert ring[t] == ring[k + 1] && m[ring[t + 1]].pred.a == ring[t];
    LinksAt(m, ring[k], ring[h - 1], ring[k + 1]);
    LinksAt(m, ring[k + 1], ring[k], ring[t + 1]);
  }

  /** The nodes that succ(n) visits, for any node. */
  ghost function NextPath(m: seq<Node>, order: seq<nat>, place: seq<real>, n: nat): seq<nat>
    requires Settled(m, order, place) && Valid(m, n)
  {
    if n != HEAD && Deleted(m, n) then SuccPath(m, order, place, n)
    else if m[n].succ.a == NIL then [] else [m[n].succ.a]
  }

  ghost function PrevPath(m: seq<Node>, order: seq<nat>, place: seq<real>, n: nat): seq<nat>
    requires Settled(m, order, place) && Valid(m, n)
  {
    if n != HEAD && Deleted(m, n) then PredPath(m, order, place, n)
    else if m[n].pred.a == NIL then [] else [m[n].pred.a]
  }

  /** succ() and pred() have their paths: to the neighbour, over unlinked nodes, or NULL off the list. */
  lemma NextChain(m: seq<Node>, order: seq<nat>, held: seq<nat>, place: seq<real>, n: nat)
    requires Represents(m, order, held, place) && Valid(m, n)
    ensures var path := NextPath(m, order, place, n);
            && SuccChain(m, n, path) && (|path| > 1 ==> n != HEAD && Deleted(m, n))
            && (path != [] <==> Stands(m, order, n)) && (path != [] ==> Last(path) in Ring(order))
            && (forall k :: 0 <= k <= |order| && Ring(order)[k] == n ==> path == [Ring(order)[k + 1]])
  {
    hide SuccPath, Sorted, Links;
    if n == HEAD || n in order {
      var k := RingIndex(order, place, n);
      RingNeighbours(m, order, held, place, k);
      assert Ring(order)[k + 1] in Ring(order);
    } else {
      assert forall k :: 0 <= k <= |order| ==> Ring(order)[k] in Ring(order);
      if Deleted(m, n) { SuccPathChain(m, order, held, place, n); }
    }
  }

  lemma PrevChain(m: seq<Node>, order: seq<nat>, held: seq<nat>, place: seq<real>, n: nat)
    requires Represents(m, order, held, place) && Valid(m, n)
    ensures var path := PrevPath(m, order, place, n);
            && PredChain(m, n, path) && (|path| > 1 ==> n != HEAD && Deleted(m, n))
            && (path != [] <==> Stands(m, order, n)) && (path != [] ==> Last(path) in Ring(order))
            && (forall k :: 0 <= k <= |order| && Ring(order)[k + 1] == n ==> path == [Ring(order)[k]])
  {
    hide PredPath, Sorted, Links;
    if n == HEAD || n in order {
      var k := RingIndex(order, place, n);
      var j := if k == 0 then |order| else k - 1;
      RingDistinct(order, place);
      RingNeighbours(m, order, held, place, j);
      assert Ring(order)[j] in Ring(order);
    } else {
      assert forall j :: 0 <= j < |Ring(order)| ==> Ring(order)[j] in Ring(order);
      if Deleted(m, n) { PredPathChain(m, order, held, place, n); }
    }
  }

  lemma HoldRepresents(m: seq<Node>, order: seq<nat>, held: seq<nat>, place: seq<real>, n: nat, d: int)
    requires Represents(m, order, held, place) && Valid(m, n) && held[n] + d >= 0
    ensures Represents(Bump(m, n, d), order, held[n := held[n] + d], place)
  {
    hide Bump, Links, Ring, Sorted;
    BumpLinks(m, n, d);
    var m' := Bump(m, n, d);
    assert forall x :: 0 <= x < |m| ==> m'[x].succ == m[x].succ && m'[x].pred == m[x].pred;
    assert forall x :: Stands(m, order, x) ==> Stands(m', order, x);
    assert forall x :: HEAD < x < |m| && Deleted(m, x) && GoneAt(m, order, place, x) ==> GoneAt(m', order, place, x);
  }

  /** A caller gets a reference to the end of a path. */
  ghost function Take(held: seq<nat>, path: seq<nat>): (r: seq<nat>)
    ensures |r| == |held|
  {
    if path == [] || Last(path) >= |held| then held else held[Last(path) := held[Last(path)] + 1]
  }

  lemma SuccSkips(m: seq<Node>, order: seq<nat>, held: seq<nat>, place: seq<real>, n: nat, path: seq<nat>)
    requires Represents(m, order, held, place) && HEAD < n < |m| && Deleted(m, n)
    requires |path| > 1 && SuccChain(m, n, path) && Last(path) in Ring(order) && place[n] < Ahead(place, Last(path))
    ensures Represents(SuccMem(m, n, path), order, Take(held, path), place)
  {
    hide Bump, SetSucc, Links, Sorted, Ring, SuccChain;
    DeletedIsGone(m, order, place, n);
    var a, b, fl := m[n].succ.a, Last(path), m[n].succ.fl;
    SuccChainStart(m, n, path);
    var m1 := SetSucc(m, n, Tag(b, fl));
    var m' := SuccMem(m, n, path);
    SuccLinks(m, n, Tag(b, fl));
    BumpLinks(m1, b, 2);
    BumpLinks(Bump(m1, b, 2), a, -1);
    assert m' == Bump(Bump(m1, b, 2), a, -1);
    assert forall x :: 0 <= x < |m| && x != n ==> m'[x].succ == m[x].succ;
    assert forall x :: 0 <= x < |m| ==> m'[x].pred == m[x].pred;
    assert forall x :: Stands(m, order, x) ==> Stands(m', order, x);
    RingKept(m, m', order, n);
  }

  lemma PredSkips(m: seq<Node>, order: seq<nat>, held: seq<nat>, place: seq<real>, n: nat, path: seq<nat>)
    requires Represents(m, order, held, place) && HEAD < n < |m| && Deleted(m, n)
    requires |path| > 1 && PredChain(m, n, path) && Last(path) in Ring(order) && Behind(place, Last(path)) < place[n]
    ensures Represents(PredMem(m, n, path), order, Take(held, path), place)
  {
    hide Bump, SetPred, Links, Sorted, Ring, PredChain;
    DeletedIsGone(m, order, place, n);
    var a, b, fl := m[n].pred.a, Last(path), m[n].pred.fl;
    PredChainStart(m, n, path);
    var m1 := SetPred(m, n, Tag(b, fl));
    var m' := PredMem(m, n, path);
    PredLinks(m, n, Tag(b, fl));
    BumpLinks(m1, b, 2);
    BumpLinks(Bump(m1, b, 2), a, -1);
    assert m' == Bump(Bump(m1, b, 2), a, -1);
    assert forall x :: 0 <= x < |m| && x != n ==> m'[x].pred == m[x].pred;
    assert forall x :: 0 <= x < |m| ==> m'[x].succ == m[x].succ && m'[x].pred.fl == m[x].pred.fl;
    assert forall x :: Stands(m, order, x) ==> Stands(m', order, x);
    RingKept(m, m', order, n);
  }

  lemma SuccChainStart(m: seq<Node>, n: nat, path: seq<nat>)
    requires SuccChain(m, n, path) && path != []
    ensures Valid(m, n) && path[0] == m[n].succ.a && Valid(m, path[0]) && Valid(m, Last(path))
  {
  }

  lemma PredChainStart(m: seq<Node>, n: nat, path: seq<nat>)
    requires PredChain(m, n, path) && path != []
    ensures Valid(m, n) && path[0] == m[n].pred.a && Valid(m, path[0]) && Valid(m, Last(path))
  {
  }

  lemma RingKept(m: seq<Node>, m': seq<Node>, order: seq<nat>, n: nat)
    requires Linked(m, Ring(order)) && |m'| == |m| && n !in Ring(order)
    requires forall x :: 0 <= x < |m| && x != n ==> m'[x].succ == m[x].succ && m'[x].pred == m[x].pred
    ensures Linked(m', Ring(order))
  {
    hide Ring;
    assert forall i :: 0 <= i < |Ring(order)| ==> Ring(order)[i] in Ring(order);
  }

  /** After succ(n) the memory still represents the list, and the caller has a reference to the result. */
  lemma SuccRepresents(m: seq<Node>, order: seq<nat>, held: seq<nat>, place: seq<real>, n: nat)
    requires Represents(m, order, held, place) && Valid(m, n)
    ensures var path := NextPath(m, order, place, n);
            SuccChain(m, n, path) && Represents(SuccMem(m, n, path), order, Take(held, path), place)
  {
    hide SuccPath, Linked, Sorted, RestOk, Ring;
    NextChain(m, order, held, place, n);
    var path := NextPath(m, order, place, n);
    if |path| == 1 {
      HoldRepresents(m, order, held, place, path[0], 1);
    } else if |path| > 1 {
      SuccSkips(m, order, held, place, n, path);
    }
  }

  lemma PredRepresents(m: seq<Node>, order: seq<nat>, held: seq<nat>, place: seq<real>, n: nat)
    requires Represents(m, order, held, place) && Valid(m, n)
    ensures var path := PrevPath(m, order, place, n);
            PredChain(m, n, path) && Represents(PredMem(m, n, path), order, Take(held, path), place)
  {
    hide PredPath, Linked, Sorted, RestOk, Ring;
    PrevChain(m, order, held, place, n);
    var path := PrevPath(m, order, place, n);
    if |path| == 1 {
      HoldRepresents(m, order, held, place, path[0], 1);
    } else if |path| > 1 {
      PredSkips(m, order, held, place, n, path);
    }
  }

  /** insert_between up to its call of pred(s). */
  function HalfInsertMem(m: seq<Node>, n: nat, p: nat, s: nat): (r: seq<Node>)
    requires Valid(m, n) && Valid(m, p) && Valid(m, s)
    ensures |r| == |m|
  {
    var m1 := SetPred(SetSucc(Bump(Bump(m, p, 1), s, 1), n, Tag(s, true)), n, Tag(p, false));
    Bump(Bump(SetSucc(Bump(m1, s, 1), p, Tag(n, false)), n, 1), s, -2)
  }

  lemma HalfInsert(m: seq<Node>, n: nat, p: nat, s: nat)
    requires Valid(m, n) && Neighbours(m, p, s) && n != p && n != s && OffList(m[n]) && m[n].cnt >= 0
    ensures ForwardChain(HalfInsertMem(m, n, p, s), s, [p, n])
  {
    hide Bump, SetPred, SetSucc;
    var h := HalfInsertMem(m, n, p, s);
    assert h[s].pred == Tag(p, false) && h[p].succ == Tag(n, false) && h[n].succ == Tag(s, true) && h[n].pred == Tag(p, false);
  }

  lemma FullInsert(m: seq<Node>, n: nat, p: nat, s: nat)
    requires Valid(m, n) && Neighbours(m, p, s) && n != p && n != s && OffList(m[n]) && m[n].cnt >= 0
    ensures var h := PredMem(HalfInsertMem(m, n, p, s), s, [p, n]);
            && |h| == |m| && h[n].cnt >= 1 && h[n].succ.a == s
            && SetSucc(Bump(h, n, -1), n, Tag(s, false)) == InsertMem(m, n, p, s)
  {
    hide Bump, SetPred, SetSucc;
    var h := HalfInsertMem(m, n, p, s);
    assert PredMem(h, s, [p, n]) == Bump(Bump(SetPred(h, s, Tag(n, h[s].pred.fl)), n, 2), p, -1);
  }

  /** insert_between that fails puts everything back. */
  lemma InsertUndone(m: seq<Node>, n: nat, p: nat, s: nat, ps: nat)
    requires Valid(m, n) && Valid(m, p) && Valid(m, s) && Valid(m, ps) && m[n].succ == Tag(NIL, true) && m[n].pred == Tag(NIL, false)
    ensures var m1 := SetPred(SetSucc(Bump(Bump(m, p, 1), s, 1), n, Tag(s, true)), n, Tag(p, false));
            var m2 := SetPred(SetSucc(Bump(m1, ps, 1), n, Tag(NIL, true)), n, Tag(NIL, false));
            && m2 == Bump(Bump(Bump(m, p, 1), s, 1), ps, 1)
            && Bump(Bump(Bump(m2, p, -1), s, -1), ps, -1) == m
  {
    hide Bump, SetPred, SetSucc;
  }

  ghost predicate Between(m: seq<Node>, p: nat, n: nat, s: nat) {
    Neighbours(m, p, n) && Neighbours(m, n, s) && p != n && s != n && m[n].cnt >= 3
  }

  /** llll_unlink up to its walk: n is marked and its predecessor skips it. */
  function HalfUnlinkMem(m: seq<Node>, p: nat, n: nat, s: nat): (r: seq<Node>)
    requires Valid(m, n) && Valid(m, p) && Valid(m, s)
    ensures |r| == |m|
  {
    Bump(Bump(SetSucc(SetPred(m, n, Tag(p, true)), p, Tag(s, false)), s, 1), n, -1)
  }

  lemma SkipMarked(m: seq<Node>, p: nat, n: nat, s: nat)
    requires Between(m, p, n, s)
    ensures var m' := SetPred(Bump(m, p, 1), n, Tag(p, true));
            && Valid(m, p) && Valid(m, s) && SuccChain(m', p, [n, s])
            && |SuccMem(m', p, [n, s])| == |m| && SuccMem(m', p, [n, s])[s].cnt >= 1 && Bump(SuccMem(m', p, [n, s]), s, -1)[p].cnt >= 1
            && Bump(Bump(SuccMem(m', p, [n, s]), s, -1), p, -1) == HalfUnlinkMem(m, p, n, s)
  {
    hide Bump, SetPred, SetSucc;
    var m' := SetPred(Bump(m, p, 1), n, Tag(p, true));
    assert SuccMem(m', p, [n, s]) == Bump(Bump(SetSucc(m', p, Tag(s, m'[p].succ.fl)), s, 2), n, -1);
  }

  lemma HalfUnlinked(m: seq<Node>, p: nat, n: nat, s: nat)
    requires Between(m, p, n, s)
    ensures var h := HalfUnlinkMem(m, p, n, s);
            && Valid(m, p) && Valid(m, n) && Valid(m, s) && |h| == |m| && SuccChain(h, n, [s]) && h[n].cnt == m[n].cnt - 1
            && h[s].pred == Tag(n, false) && Bump(h, s, 1)[n].cnt == h[n].cnt
  {
    hide Bump, SetPred, SetSucc;
  }

  lemma RepairSuccessor(m: seq<Node>, p: nat, n: nat, s: nat)
    requires Between(m, p, n, s)
    ensures var h := Bump(HalfUnlinkMem(m, p, n, s), s, 1);
            && Valid(m, p) && PredChain(h, s, [n, p])
            && |PredMem(h, s, [n, p])| == |m| && PredMem(h, s, [n, p])[p].cnt >= 1
            && Bump(PredMem(h, s, [n, p]), p, -1) == Bump(UnlinkMem(m, n, p, s), s, 1)
  {
    hide Bump, SetPred, SetSucc;
    var h := Bump(HalfUnlinkMem(m, p, n, s), s, 1);
    assert h[s].pred == Tag(n, false) && h[n].succ == Tag(s, false) && h[n].pred == Tag(p, true) && !Deleted(h, p);
    assert PredMem(h, s, [n, p]) == Bump(Bump(SetPred(h, s, Tag(p, h[s].pred.fl)), p, 2), n, -1);
  }

  lemma OrderBetween(m: seq<Node>, order: seq<nat>, held: seq<nat>, place: seq<real>, k: nat)
    requires Represents(m, order, held, place) && k < |order| && order[k] < |held| && held[order[k]] >= 1
    ensures Ring(order)[k + 1] == order[k] && Between(m, Ring(order)[k], order[k], Ring(order)[k + 2])
    ensures Ring(Remove(order, k))[k + 1] == Ring(order)[k + 2]
  {
    hide Links, RestOk;
    RingNeighbours(m, order, held, place, k);
    RingNeighbours(m, order, held, place, k + 1);
    LinkedAt(m, order, place, k);
    RemoveRing(order, place, k);
    LinksAt(m, order[k], Ring(order)[k], Ring(order)[k + 2]);
  }

  /** One step of the walk along the list without n. */
  lemma WalkStep(m: seq<Node>, order: seq<nat>, held: seq<nat>, place: seq<real>, n: nat, j: nat)
    requires Represents(m, order, held, place) && HEAD < n < |m| && Deleted(m, n) && 0 < j < |order| + 2
    ensures var i := Ring(order)[j];
            && Valid(m, i) && m[i].pred.a != n && i != n && m[i].cnt >= 1 && Bump(m, i, 1)[n].cnt == m[n].cnt
            && (i != HEAD ==>
                  j < |order| + 1 &&
                  var i' := Ring(order)[j + 1];
                  && Valid(m, i') && SuccChain(Bump(m, i, 1), i, [i'])
                  && Bump(Bump(Bump(m, i, 1), i', 1), i, -1) == Bump(m, i', 1))
  {
    hide Bump, Ring, Links, RestOk, Sorted;
    var ring := Ring(order);
    RingNeighbours(m, order, held, place, j - 1);
    assert ring[j] in ring && ring[j - 1] in ring;
    DeletedIsGone(m, order, place, n);
    if ring[j] != HEAD {
      RingNeighbours(m, order, held, place, j);
    }
  }

  lemma LockRepresents(m: seq<Node>, order: seq<nat>, held: seq<nat>, place: seq<real>, n: nat)
    requires Represents(m, order, held, place) && HEAD < n < |m| && n !in order && OffList(m[n])
    ensures Represents(SetSucc(m, n, Tag(NIL, true)), order, held, place)
  {
    hide SetSucc, Links, Ring, Sorted;
    var m' := SetSucc(m, n, Tag(NIL, true));
    SuccLinks(m, n, Tag(NIL, true));
    RingKept(m, m', order, n);
    assert forall x :: Stands(m, order, x) ==> Stands(m', order, x);
  }

  lemma OnRing(m: seq<Node>, order: seq<nat>, place: seq<real>, k: nat)
    requires Settled(m, order, place) && k < |order|
    ensures Ring(order)[k + 1] == order[k] && Valid(m, order[k]) && !Deleted(m, order[k]) && order[k] > HEAD
    ensures forall j :: 0 <= j < |order| && order[j] == order[k] ==> j == k
  {
    assert order[k] in Ring(order);
    LiveRing(m, order, order[k]);
  }

  lemma InsertEnds(order: seq<nat>, n: nat)
    ensures Insert(order, 0, n) == [n] + order && Insert(order, |order|, n) == order + [n]
  {
  }

  lemma RemoveEnds(order: seq<nat>)
    requires order != []
    ensures Remove(order, 0) == order[1..] && Remove(order, |order| - 1) == order[..|order| - 1]
  {
  }

  lemma RingEnds(m: seq<Node>, order: seq<nat>, place: seq<real>)
    requires Settled(m, order, place)
    ensures Valid(m, HEAD) && (order == [] <==> Ring(order)[1] == HEAD)
    ensures order == [] <==> Ring(order)[|order|] == HEAD
    ensures order != [] ==> Ring(order)[1] == order[0] && Ring(order)[|order|] == order[|order| - 1]
    ensures order != [] ==> Valid(m, order[0]) && Valid(m, order[|order| - 1])
  {
    LiveRing(m, order, HEAD);
    if order != [] { OnRing(m, order, place, 0); OnRing(m, order, place, |order| - 1); }
  }

  /** A node has a successor exactly when it is on the list or unlinked. */
  lemma ListedNode(m: seq<Node>, order: seq<nat>, place: seq<real>, n: nat)
    requires Settled(m, order, place) && HEAD < n < |m|
    ensures m[n].succ.a != NIL <==> n in order || Deleted(m, n)
    ensures n in order ==> !Deleted(m, n) && !m[n].succ.fl
    ensures n !in order && !Deleted(m, n) ==> OffList(m[n])
  {
    if n in order {
      var k :| 0 <= k < |order| && order[k] == n;
      OnRing(m, order, place, k);
      LinkedAt(m, order, place, k);
    }
  }

  /** A path that pred(n) can follow. */
  ghost predicate PredWay(m: seq<Node>, n: nat, path: seq<nat>) { PredChain(m, n, path) || ForwardChain(m, n, path) }

  lemma PredWayStart(m: seq<Node>, n: nat, path: seq<nat>)
    requires PredWay(m, n, path)
    ensures Valid(m, n) && Counted(m, path) && (path == [] <==> m[n].pred.a == NIL) && (path != [] ==> path[0] == m[n].pred.a)
    ensures path != [] ==> !Deleted(m, Last(path))
    ensures ForwardChain(m, n, path) ==> !m[n].pred.fl
  {
  }

  /** At a deleted node of its path pred(n) goes back to the next one, and n->pred has not changed. */
  lemma PredWayBack(m: seq<Node>, n: nat, path: seq<nat>, j: nat)
    requires PredWay(m, n, path) && j < |path| && Deleted(m, path[j])
    ensures j + 1 < |path| && path[j] != n && m[path[j]].pred == Tag(path[j + 1], true) && !ForwardChain(m, n, path)
    ensures j > 0 ==> m[n].pred.fl
  {
  }

  lemma PredWayEnd(m: seq<Node>, n: nat, path: seq<nat>, j: nat)
    requires PredWay(m, n, path) && j < |path| && Valid(m, path[j]) && !Deleted(m, path[j])
    ensures j == |path| - 1 || ForwardChain(m, n, path)
  {
  }

  lemma PredAtStart(m: seq<Node>, n: nat, path: seq<nat>)
    requires Valid(m, n) && path != [] && Valid(m, path[0])
    ensures PredAt(m, n, path, 0) == Bump(m, path[0], 1)
  {
  }

  lemma PredAtLinks(m: seq<Node>, n: nat, path: seq<nat>, j: nat)
    requires Valid(m, n) && j < |path| && Valid(m, path[0]) && Valid(m, path[j]) && m[n].pred.a == path[0]
    ensures var m' := PredAt(m, n, path, j);
            && |m'| == |m| && m'[n].pred == Tag(path[j], m[n].pred.fl)
            && (forall x :: 0 <= x < |m| && x != n ==> m'[x].pred == m[x].pred)
            && (forall x :: 0 <= x < |m| ==> m'[x].succ == m[x].succ && m'[x].pred.fl == m[x].pred.fl)
  {
    hide Bump, SetPred;
  }

  /** The node behind the j-th node of a forward path to n. */
  ghost function Onward(n: nat, path: seq<nat>, j: nat): nat { if j + 1 < |path| then path[j + 1] else n }

  lemma OnwardChain(m: seq<Node>, n: nat, path: seq<nat>, j: nat)
    requires PredWay(m, n, path) && j < |path| && !m[n].pred.fl && (j == 0 || ForwardChain(m, n, path))
    ensures var s := if ForwardChain(m, n, path) then Onward(n, path, j) else n;
            && Valid(m, s) && SuccChain(PredAt(m, n, path, j), path[j], [s]) && PredAt(m, n, path, j)[s].cnt >= 0
            && (ForwardChain(m, n, path) ==> (s == n <==> j == |path| - 1))
  {
    hide Bump, SetPred;
    PredAtLinks(m, n, path, j);
    if ForwardChain(m, n, path) {
      assert m[path[j]].succ.a == Onward(n, path, j);
    }
  }
}
