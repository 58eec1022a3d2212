/** The insert operations of service/ll.c in the interleaved machine, for a thread that runs alone. */
module LlInserts {
  import opened Options
  import opened LlTypes
  import opened LlMachine
  import opened LlShape
  import opened LlList
  import opened LlScene
  import opened LlSolo
  import opened LlCalls

  /** References in the middle of an insertion at x: those of the applications, one to n and one to the anchor if it is not the head. */
  ghost predicate Inserting(held0: seq<nat>, held: seq<nat>, i: Ins, x: nat) {
    |held| == |held0| && forall y :: 0 <= y < |held| ==> held[y] == held0[y] + One(i.n, y) + if i.own then One(x, y) else 0
  }

  /** succ() or pred() of the anchor. */
  lemma LooksUp(g: Solo, m: seq<Node>, z: int, order: seq<nat>, held: seq<nat>, place: seq<real>, i: Ins, x: nat)
    returns (m': seq<Node>, held': seq<nat>, y: nat)
    requires Represents(m, order, held, place) && Stands(m, order, x) && At(g, Open(m, z), Thread([], LookUp(i, x)))
    ensures At(g, Open(m', z), Thread([], InInsert(i, BWait(x, y)))) && Represents(m', order, held', place)
    ensures |held'| == |held| && y in Ring(order) && y < |held| && held' == held[y := held[y] + 1]
    ensures i.after ==> SameButSucc(m, m', x) && forall j :: 0 <= j <= |order| && Ring(order)[j] == x ==> y == Ring(order)[j + 1]
    ensures !i.after ==> SameButPred(m, m', x) && forall j :: 0 <= j <= |order| && Ring(order)[j + 1] == x ==> y == Ring(order)[j]
  {
    hide At, Settled, CountOk, Ring, RetPtr, Nothing, SuccChain, PredChain, ForwardChain, SuccMem, PredMem, SuccPath, PredPath, NextPath,
         PrevPath, SameButSucc, SameButPred;
    if i.after {
      var path := NextPath(m, order, place, x);
      NextChain(m, order, held, place, x);
      SuccRepresents(m, order, held, place, x);
      SuccChainStart(m, x, path);
      SuccRun(g, m, z, x, path, KInsert(i, ALook(x)));
      SuccMemLinks(m, x, path);
      m', y := SuccMem(m, x, path), Last(path);
      LookReturns(g, m', z, i, x, Tag(y, m[x].succ.fl));
      OnListStands(m, order, place, y);
      held' := Take(held, path);
    } else {
      var path := PrevPath(m, order, place, x);
      PrevChain(m, order, held, place, x);
      PredRepresents(m, order, held, place, x);
      PredChainStart(m, x, path);
      PredRun(g, m, z, x, path, KInsert(i, ALook(x)));
      PredMemLinks(m, x, path);
      m', y := PredMem(m, x, path), Last(path);
      LookReturns(g, m', z, i, x, Tag(y, m[x].pred.fl));
      OnListStands(m, order, place, y);
      held' := Take(held, path);
    }
  }

  /** Where a node inserted at the live anchor x goes. */
  ghost predicate GoesTo(order: seq<nat>, i: Ins, x: nat, y: nat, j: nat) {
    j <= |order| && Ring(order)[j] == InsertPred(i, x, y) && Ring(order)[j + 1] == InsertSucc(i, x, y)
  }

  /** The node is put right behind the anchor, or right before it. */
  ghost predicate PutAt(order: seq<nat>, order': seq<nat>, i: Ins, x: nat) {
    if i.after then InsertedBehind(order, order', i.n, x) else InsertedBefore(order, order', i.n, x)
  }

  lemma Finds(order: seq<nat>, place: seq<real>, i: Ins, x: nat, y: nat) returns (j: nat)
    requires Sorted(order, place) && x in Ring(order)
    requires i.after ==> forall j :: 0 <= j <= |order| && Ring(order)[j] == x ==> y == Ring(order)[j + 1]
    requires !i.after ==> forall j :: 0 <= j <= |order| && Ring(order)[j + 1] == x ==> y == Ring(order)[j]
    ensures GoesTo(order, i, x, y, j) && PutAt(order, Insert(order, j, i.n), i, x)
  {
    RingDistinct(order, place);
    j := RingIndex(order, place, x);
    if !i.after {
      j := if j == 0 then |order| else j - 1;
      assert Ring(order)[j + 1] == x;
    } else {
      assert Ring(order)[j] == x;
    }
  }

  /** The insertion with a live anchor succeeds. */
  lemma InsertsAt(g: Solo, m: seq<Node>, order: seq<nat>, held0: seq<nat>, held: seq<nat>, place: seq<real>, i: Ins, x: nat)
    returns (m': seq<Node>, j: nat, place': seq<real>)
    requires Represents(m, order, held, place) && Inserting(held0, held, i, x) && InsertLocked(m, i.n) && HEAD < i.n && i.n !in order
    requires x in Ring(order) && At(g, Open(m, |order|), Thread([], LookUp(i, x)))
    ensures j <= |order| && At(g, Open(m', |order| + 1), Thread([], Idle(i.bag)))
    ensures Represents(m', Insert(order, j, i.n), held0, place')
    ensures PutAt(order, Insert(order, j, i.n), i, x)
  {
    hide At, Settled, CountOk, Ring, Insert, LookUp, InsertMem, Midway, DroppedMem, Neighbours, PutAt;
    OnListStands(m, order, place, x);
    var m1, h1, y := LooksUp(g, m, |order|, order, held, place, i, x);
    assert Sorted(order, place) by { IsSorted(m, order, place); }
    j := Finds(order, place, i, x, y);
    OnListStands(m1, order, place, x);
    OnListStands(m1, order, place, y);
    RingNeighbours(m1, order, h1, place, j);
    LockKept(m, m1, i.n, x);
    CountNatural(m1, order, h1, place, i.n);
    NeighboursAre(m1, i, x, y);
    InsertJoins(g, m1, |order|, i, x, y);
    var p, q := InsertPred(i, x, y), InsertSucc(i, x, y);
    InsertRepresents(m1, order, h1, place, j, i.n);
    place' := Midway(place, i.n, p, q);
    var m2 := InsertMem(m1, i.n, p, q);
    Drops(m2, Insert(order, j, i.n), held0, h1, place', i, x, y);
    m' := DroppedMem(m2, i, x, y);
  }

  lemma IsSorted(m: seq<Node>, order: seq<nat>, place: seq<real>)
    requires Settled(m, order, place)
    ensures Sorted(order, place)
  {
  }

  lemma CountNatural(m: seq<Node>, order: seq<nat>, held: seq<nat>, place: seq<real>, n: nat)
    requires Represents(m, order, held, place) && Valid(m, n)
    ensures m[n].cnt >= 0
  {
  }

  lemma NeighboursAre(m: seq<Node>, i: Ins, x: nat, y: nat)
    requires Neighbours(m, InsertPred(i, x, y), InsertSucc(i, x, y))
    ensures Valid(m, x) && Valid(m, y)
  {
  }

  lemma LockKept(m: seq<Node>, m': seq<Node>, n: nat, x: nat)
    requires InsertLocked(m, n) && Valid(m, x) && n != x && (SameButSucc(m, m', x) || SameButPred(m, m', x))
    ensures InsertLocked(m', n)
  {
  }

  /** The insertion is over: it drops its references. */
  lemma Drops(m: seq<Node>, order: seq<nat>, held0: seq<nat>, held: seq<nat>, place: seq<real>, i: Ins, x: nat, y: nat)
    requires Represents(m, order, held, place) && Valid(m, i.n) && Valid(m, x) && Valid(m, y) && |held0| == |m|
    requires forall a :: 0 <= a < |held| ==> held[a] == held0[a] + One(i.n, a) + (if i.own then One(x, a) else 0) + One(y, a)
    ensures Represents(DroppedMem(m, i, x, y), order, held0, place)
  {
    hide Settled, CountOk, Bump;
    var m1, h1 := m, held;
    if i.own {
      var p, q := InsertPred(i, x, y), InsertSucc(i, x, y);
      HoldRepresents(m, order, held, place, p, -1);
      var h2 := held[p := held[p] - 1];
      HoldRepresents(Bump(m, p, -1), order, h2, place, q, -1);
      m1, h1 := Bump(Bump(m, p, -1), q, -1), h2[q := h2[q] - 1];
    } else {
      HoldRepresents(m, order, held, place, y, -1);
      m1, h1 := Bump(m, y, -1), held[y := held[y] - 1];
    }
    HoldRepresents(m1, order, h1, place, i.n, -1);
    assert h1[i.n := h1[i.n] - 1] == held0;
  }

  /** The live node at which a node inserted at x is put. */
  ghost function Lands(m: seq<Node>, order: seq<nat>, place: seq<real>, after: bool, x: nat): nat
    requires Settled(m, order, place) && Valid(m, x)
  {
    if after then LandsAfter(m, order, place, x) else LandsBefore(m, order, place, x)
  }

  /** A deleted anchor makes insert_between fail. */
  lemma FailsAt(g: Solo, m: seq<Node>, order: seq<nat>, held: seq<nat>, place: seq<real>, i: Ins, x: nat)
    returns (m': seq<Node>)
    requires Represents(m, order, held, place) && InsertLocked(m, i.n) && HEAD < i.n && i.n !in order && i.own && i.n != x
    requires HEAD < x < |m| && Deleted(m, x) && At(g, Open(m, |order|), Thread([], LookUp(i, x)))
    ensures At(g, Open(m', |order|), Thread([], InInsert(i, IFix(x)))) && Represents(m', order, held, place) && InsertLocked(m', i.n)
    ensures if i.after then SameButSucc(m, m', x) else SameButPred(m, m', x)
  {
    hide At, Settled, CountOk, Ring, LookUp, Bump;
    var m1, h1, y := LooksUp(g, m, |order|, order, held, place, i, x);
    OnListStands(m1, order, place, y);
    LockKept(m, m1, i.n, x);
    assert Deleted(m1, x);
    NotNeighbours(m1, order, place, i, x, y);
    InsertFails(g, m1, |order|, i, x, y);
    HoldRepresents(m1, order, h1, place, y, -1);
    assert h1[y := h1[y] - 1] == held;
    m' := Bump(m1, y, -1);
  }

  lemma NotNeighbours(m: seq<Node>, order: seq<nat>, place: seq<real>, i: Ins, x: nat, y: nat)
    requires Settled(m, order, place) && HEAD < x < |m| && Deleted(m, x) && y in Ring(order)
    ensures Valid(m, y)
    ensures var p, s := InsertPred(i, x, y), InsertSucc(i, x, y); Valid(m, m[p].succ.a) && (m[p].succ.a != s || Deleted(m, p))
  {
    hide Ring, SuccPath, PredPath;
    DeletedIsGone(m, order, place, x);
    LiveRing(m, order, y);
    var j := RingIndex(order, place, y);
    assert m[Ring(order)[j]].succ == Tag(Ring(order)[j + 1], false) && Ring(order)[j + 1] in Ring(order);
    LiveRing(m, order, Ring(order)[j + 1]);
  }

  /** ... and go on from the live node before or behind it. */
  lemma GoesOn(g: Solo, m: seq<Node>, order: seq<nat>, held0: seq<nat>, held: seq<nat>, place: seq<real>, i: Ins, x: nat)
    returns (m': seq<Node>, held': seq<nat>, x': nat)
    requires Represents(m, order, held, place) && Inserting(held0, held, i, x) && InsertLocked(m, i.n) && i.own && i.n != x
    requires HEAD < x < |m| && Deleted(m, x) && At(g, Open(m, |order|), Thread([], InInsert(i, IFix(x))))
    ensures At(g, Open(m', |order|), Thread([], LookUp(i, x'))) && x' == Lands(m, order, place, i.after, x) && x' in Ring(order)
    ensures Represents(m', order, held', place) && Inserting(held0, held', i, x') && InsertLocked(m', i.n)
  {
    hide At, Settled, CountOk, Ring, LookUp, Bump, RetPtr, Nothing, SuccChain, PredChain, ForwardChain, SuccMem, PredMem, SuccPath, PredPath,
         NextPath, PrevPath, SameButSucc, SameButPred, InsertLocked;
    FixStarts(g, m, |order|, i, x);
    LandsOnList(m, order, held, place, x);
    var path := if i.after then PrevPath(m, order, place, x) else NextPath(m, order, place, x);
    var m1;
    if i.after {
      PrevChain(m, order, held, place, x);
      PredRepresents(m, order, held, place, x);
      PredChainStart(m, x, path);
      PredRun(g, m, |order|, x, path, KInsert(i, AFix(x)));
      PredMemLinks(m, x, path);
      m1 := PredMem(m, x, path);
      FixReturns(g, m1, |order|, i, x, Tag(Last(path), m[x].pred.fl));
    } else {
      NextChain(m, order, held, place, x);
      SuccRepresents(m, order, held, place, x);
      SuccChainStart(m, x, path);
      SuccRun(g, m, |order|, x, path, KInsert(i, AFix(x)));
      SuccMemLinks(m, x, path);
      m1 := SuccMem(m, x, path);
      FixReturns(g, m1, |order|, i, x, Tag(Last(path), m[x].succ.fl));
    }
    x' := Last(path);
    LockKept(m, m1, i.n, x);
    OnListStands(m, order, place, x');
    var h1 := Take(held, path);
    HoldRepresents(m1, order, h1, place, x, -1);
    m', held' := Bump(m1, x, -1), h1[x := h1[x] - 1];
    LockBumped(m1, i.n, x);
  }

  lemma LockBumped(m: seq<Node>, n: nat, x: nat)
    requires InsertLocked(m, n) && Valid(m, x)
    ensures InsertLocked(Bump(m, x, -1), n)
  {
  }

  /** The insertion, whether its anchor is live or not. */
  lemma InsertsNear(g: Solo, m: seq<Node>, order: seq<nat>, held0: seq<nat>, held: seq<nat>, place: seq<real>, i: Ins)
    returns (m': seq<Node>, order': seq<nat>, place': seq<real>)
    requires Represents(m, order, held, place) && Inserting(held0, held, i, i.rel) && InsertLocked(m, i.n) && HEAD < i.n && i.n !in order
    requires Stands(m, order, i.rel) && (!i.own ==> i.rel == HEAD) && At(g, Open(m, |order|), Thread([], LookUp(i, i.rel)))
    ensures At(g, Open(m', |order'|), Thread([], Idle(i.bag))) && Represents(m', order', held0, place')
    ensures PutAt(order, order', i, Lands(m, order, place, i.after, i.rel))
  {
    hide At, Settled, CountOk, Ring, LookUp, Insert, PutAt, InsertLocked, Inserting, SuccPath, PredPath;
    LiveHead(m, order, place);
    var j;
    if Deleted(m, i.rel) {
      assert i.n != i.rel by { LockedIsLive(m, i.n); }
      var m1 := FailsAt(g, m, order, held, place, i, i.rel);
      SameLands(m, m1, order, place, i.after, i.rel);
      var m2, h2, x := GoesOn(g, m1, order, held0, held, place, i, i.rel);
      m', j, place' := InsertsAt(g, m2, order, held0, h2, place, i, x);
    } else {
      m', j, place' := InsertsAt(g, m, order, held0, held, place, i, i.rel);
    }
    order' := Insert(order, j, i.n);
  }

  lemma LiveHead(m: seq<Node>, order: seq<nat>, place: seq<real>)
    requires Settled(m, order, place)
    ensures Valid(m, HEAD) && !Deleted(m, HEAD)
    ensures forall x :: Stands(m, order, x) && !Deleted(m, x) ==> x in Ring(order)
  {
    LiveRing(m, order, HEAD);
  }

  lemma LockedIsLive(m: seq<Node>, n: nat)
    requires InsertLocked(m, n)
    ensures !Deleted(m, n)
  {
  }

  lemma SameLands(m: seq<Node>, m': seq<Node>, order: seq<nat>, place: seq<real>, after: bool, x: nat)
    requires Settled(m, order, place) && Settled(m', order, place) && Stands(m, order, x) && Deleted(m, x)
    requires if after then SameButSucc(m, m', x) else SameButPred(m, m', x)
    ensures Valid(m', x) && Deleted(m', x) && Lands(m', order, place, after, x) == Lands(m, order, place, after, x)
  {
    hide Settled, SuccPath, PredPath;
    if after { LandsAfterSame(m, m', order, place, x); } else { LandsBeforeSame(m, m', order, place, x); }
  }

  /** The references that an insertion takes first. */
  lemma StartHolds(m: seq<Node>, order: seq<nat>, held: seq<nat>, place: seq<real>, i: Ins) returns (held': seq<nat>)
    requires Represents(m, order, held, place) && InsertLocked(m, i.n) && Stands(m, order, i.rel) && i.n !in order && HEAD < i.n
    ensures Represents(StartMem(m, i), order, held', place) && Inserting(held, held', i, i.rel) && InsertLocked(StartMem(m, i), i.n)
    ensures Stands(StartMem(m, i), order, i.rel)
    ensures Lands(StartMem(m, i), order, place, i.after, i.rel) == Lands(m, order, place, i.after, i.rel)
  {
    hide Settled, CountOk, Bump, SuccPath, PredPath;
    HoldRepresents(m, order, held, place, i.n, 1);
    held' := held[i.n := held[i.n] + 1];
    if i.own {
      HoldRepresents(Bump(m, i.n, 1), order, held', place, i.rel, 1);
      held' := held'[i.rel := held'[i.rel] + 1];
    }
    var m' := StartMem(m, i);
    assert SameLinks(m, m');
    LinksSame(m, m');
    LandsAfterSame(m, m', order, place, i.rel);
    LandsBeforeSame(m, m', order, place, i.rel);
  }

  /** Locking or releasing n does not change where a node inserted next to another node lands. */
  lemma LandsKept(m: seq<Node>, m': seq<Node>, order: seq<nat>, place: seq<real>, after: bool, rel: nat, n: nat)
    requires Settled(m, order, place) && Settled(m', order, place) && OthersKept(m, m', n) && InsertLocked(m', n) && HEAD < n
    requires Stands(m, order, rel) && rel != n && n !in order
    ensures Stands(m', order, rel) && Lands(m', order, place, after, rel) == Lands(m, order, place, after, rel)
  {
    hide Settled, SuccPath, PredPath;
    LandsAfterKept(m, m', order, place, rel, n);
    LandsBeforeKept(m, m', order, place, rel, n);
  }

  lemma LockedFor(m: seq<Node>, n: nat)
    requires Valid(m, n) && m[n].succ == m[n].pred == Tag(NIL, false)
    ensures InsertLocked(SetSucc(m, n, Tag(NIL, true)), n) && OthersKept(m, SetSucc(m, n, Tag(NIL, true)), n)
  {
  }

  /** The insert operations without wait, on a node that is off the list and not locked. */
  lemma InsertAlone(g: Solo, m: seq<Node>, order: seq<nat>, held: seq<nat>, place: seq<real>, i: Ins)
    returns (m': seq<Node>, order': seq<nat>, place': seq<real>)
    requires Represents(m, order, held, place) && HEAD < i.n < |m| && m[i.n].succ == Tag(NIL, false)
    requires Stands(m, order, i.rel) && i.rel != i.n && (!i.own ==> i.rel == HEAD)
    requires At(g, Open(m, |order|), Thread([], InInsert(i, ILock(false))))
    ensures At(g, Open(m', |order'|), Thread([], Idle(i.bag))) && Represents(m', order', held, place')
    ensures PutAt(order, order', i, Lands(m, order, place, i.after, i.rel))
  {
    hide At, Settled, CountOk, LookUp, SetSucc, StartMem, PutAt, InsertLocked, Inserting, SuccPath, PredPath, OthersKept;
    ListedNode(m, order, place, i.n);
    var m1 := SetSucc(m, i.n, Tag(NIL, true));
    InsertStarts(g, m, |order|, i);
    LockRepresents(m, order, held, place, i.n);
    LockedFor(m, i.n);
    LandsKept(m, m1, order, place, i.after, i.rel, i.n);
    var held1 := StartHolds(m1, order, held, place, i);
    m', order', place' := InsertsNear(g, StartMem(m1, i), order, held, held1, place, i);
  }

  /** With wait: n was unlinked, and only the caller refers to it. */
  lemma ReinsertAlone(g: Solo, m: seq<Node>, order: seq<nat>, held: seq<nat>, place: seq<real>, i: Ins, rest: multiset<nat>)
    returns (m': seq<Node>, order': seq<nat>, place': seq<real>)
    requires Represents(m, order, held, place) && Releasable(m, held, i.n) && i.bag == rest + multiset{i.n}
    requires Stands(m, order, i.rel) && i.rel != i.n && (!i.own ==> i.rel == HEAD)
    requires At(g, Open(m, |order|), Thread([], InRelease(i.n, true, RWait, KReinsert(i.(bag := rest)))))
    ensures At(g, Open(m', |order'|), Thread([], Idle(i.bag))) && Represents(m', order', held, place')
    ensures PutAt(order, order', i, Lands(m, order, place, i.after, i.rel))
  {
    hide At, Settled, CountOk, LookUp, ReleaseMem, PutAt, Inserting, SuccPath, PredPath, OthersKept, Idles;
    var n, p, q := i.n, m[i.n].pred.a, m[i.n].succ.a;
    ReleaseReady(m, order, held, place, n, true);
    IdlesValid(m, n, p, q);
    DeletedIsGone(m, order, place, n);
    ReleaseRun(g, m, |order|, n, p, q, true, KReinsert(i.(bag := rest)));
    var m1 := ReleaseMem(m, n, p, q, true);
    LandsKept(m, m1, order, place, i.after, i.rel, n);
    assert StartMem(m1, i.(bag := rest)) == StartMem(m1, i) && i.(bag := rest).(bag := rest + multiset{n}) == i;
    var held1 := StartHolds(m1, order, held, place, i);
    m', order', place' := InsertsNear(g, StartMem(m1, i), order, held, held1, place, i);
  }

  /**
   The insert operations put n right behind or right before their anchor, or where that stood if it is unlinked; the
   size grows by one and no reference is gained or lost.
   */
  lemma InsertCall(s: State, t: nat, order: seq<nat>, place: seq<real>, bag: multiset<nat>, n: nat, after: bool, own: bool, rel: nat,
                   wait: bool) returns (k: nat, order': seq<nat>, place': seq<real>)
    requires Rests(s, order, place) && IdleWith(s, t, bag) && HEAD < n < |s.mem| && n != rel
    requires Stands(Nodes(s.mem), order, rel) && if own then rel in bag else rel == HEAD
    requires if wait then n in bag && Releasable(Nodes(s.mem), HeldBy(s.threads, |s.mem|), n) else Nodes(s.mem)[n].succ == Tag(NIL, false)
    ensures var s' := Called(s, t, LlInsert(n, after, own, rel, wait), k); Over(s, t, s', bag) && Rests(s', order', place')
    ensures after ==> InsertedBehind(order, order', n, LandsAfter(Nodes(s.mem), order, place, rel))
    ensures !after ==> InsertedBefore(order, order', n, LandsBefore(Nodes(s.mem), order, place, rel))
  {
    hide At, Settled, CountOk, Alone, Nothing, InsertedBehind, InsertedBefore, LandsAfter, LandsBefore, Stands, Releasable;
    var m, h := Nodes(s.mem), HeldBy(s.threads, |s.mem|);
    var api, i := LlInsert(n, after, own, rel, wait), Ins(n, after, own, rel, bag);
    var g := Solo(Step(s, Call(t, api)), t);
    Begins(s, t, api, order, place, bag);
    EmptyQueue();
    var m';
    if wait {
      assert bag - multiset{n} + multiset{n} == bag;
      m', order', place' := ReinsertAlone(g, m, order, h, place, i, bag - multiset{n});
    } else {
      m', order', place' := InsertAlone(g, m, order, h, place, i);
    }
    k := Ends(s, t, api, bag, m', order', h, place', bag);
  }

  /** ll_insert_head and ll_insert_tail. */
  lemma InsertEndCall(s: State, t: nat, order: seq<nat>, place: seq<real>, bag: multiset<nat>, n: nat, head: bool)
    returns (k: nat, place': seq<real>)
    requires Rests(s, order, place) && IdleWith(s, t, bag) && HEAD < n < |s.mem| && Nodes(s.mem)[n].succ == Tag(NIL, false)
    ensures var s' := Called(s, t, LlInsert(n, head, false, HEAD, false), k);
            Over(s, t, s', bag) && Rests(s', if head then [n] + order else order + [n], place')
  {
    hide Rests, Alone, Insert;
    RestsRepresents(s, order, place);
    var m := Nodes(s.mem);
    LiveHead(m, order, place);
    var order';
    k, order', place' := InsertCall(s, t, order, place, bag, n, head, false, HEAD, false);
    assert Ring(order)[0] == HEAD && Ring(order)[|order| + 1] == HEAD;
    InsertEnds(order, n);
    assert order' == if head then Insert(order, 0, n) else Insert(order, |order|, n);
  }

  /** A node that is on the list, unlinked or locked is not inserted. */
  lemma InsertRefusedCall(s: State, t: nat, order: seq<nat>, place: seq<real>, bag: multiset<nat>, n: nat, after: bool, own: bool, rel: nat)
    returns (k: nat)
    requires Rests(s, order, place) && IdleWith(s, t, bag) && HEAD < n < |s.mem| && if own then rel in bag else rel == HEAD
    requires Nodes(s.mem)[n].succ != Tag(NIL, false)
    ensures var s' := Called(s, t, LlInsert(n, after, own, rel, false), k);
            Over(s, t, s', bag) && Rests(s', order, place) && Nodes(s'.mem) == Nodes(s.mem)
  {
    hide At, Settled, CountOk, Alone, Nothing;
    var m, h := Nodes(s.mem), HeldBy(s.threads, |s.mem|);
    var api, i := LlInsert(n, after, own, rel, false), Ins(n, after, own, rel, bag);
    Begins(s, t, api, order, place, bag);
    EmptyQueue();
    InsertRefused(Solo(Step(s, Call(t, api)), t), m, |order|, i);
    k := Ends(s, t, api, bag, m, order, h, place, bag);
  }
}
