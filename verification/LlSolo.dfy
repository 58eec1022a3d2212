/**
 The control points of the list machine for a thread that runs alone: how succ(), pred(), the insertion, llll_unlink()
 and unlink_release() get from their first operation to their last, and what they leave in memory.
 */
module LlSolo {
  import opened Options
  import opened LlTypes
  import opened LlMachine
  import opened LlShape
  import opened LlList
  import opened LlScene

  /** A scene in which no link is locked. */
  function Open(m: seq<Node>, size: int): Scene { Scene(m, None, size) }

  // ----- succ() -----

  lemma SuccStarts(g: Solo, m: seq<Node>, z: int, n: nat, k: PtrK)
    requires At(g, Open(m, z), Thread([], InSucc(n, SStart, k))) && Valid(m, n) && Valid(m, m[n].succ.a)
    ensures At(g, Open(Bump(m, m[n].succ.a, 1), z), Thread([], InSucc(n, STest(m[n].succ), k)))
  {
    hide At, Then, Nothing, Drain, AllFit, Bump, RetPtr;
    DrainLaws();
    Turn(g, Open(m, z), InSucc(n, SStart, k), Open(Bump(m, m[n].succ.a, 1), z), InSucc(n, STest(m[n].succ), k));
  }

  lemma SuccReturns(g: Solo, m: seq<Node>, z: int, n: nat, s: Tag, k: PtrK)
    requires At(g, Open(m, z), Thread([], InSucc(n, STest(s), k))) && Valid(m, s.a) && !Deleted(m, s.a)
    ensures At(g, Open(m, z), RetPtr(k, s, Nothing()))
  {
    hide At, Nothing, RetPtr;
    OneOp(g, Open(m, z), InSucc(n, STest(s), k));
  }

  lemma SuccFollows(g: Solo, m: seq<Node>, z: int, n: nat, s: Tag, k: PtrK)
    requires At(g, Open(m, z), Thread([], InSucc(n, STest(s), k))) && Valid(m, s.a) && Deleted(m, s.a) && Valid(m, m[s.a].succ.a)
    ensures At(g, Open(Bump(m, m[s.a].succ.a, 1), z), Thread([], InSucc(n, SCas(s, Tag(m[s.a].succ.a, s.fl)), k)))
  {
    hide At, Then, Nothing, Drain, AllFit, Bump, RetPtr;
    DrainLaws();
    Turn(g, Open(m, z), InSucc(n, STest(s), k), Open(m, z), InSucc(n, SNext(s), k));
    Turn(g, Open(m, z), InSucc(n, SNext(s), k),
         Open(Bump(m, m[s.a].succ.a, 1), z), InSucc(n, SCas(s, Tag(m[s.a].succ.a, s.fl)), k));
  }

  lemma SuccSwaps(g: Solo, m: seq<Node>, z: int, n: nat, s: Tag, ss: Tag, k: PtrK)
    requires At(g, Open(m, z), Thread([], InSucc(n, SCas(s, ss), k))) && Valid(m, n) && Valid(m, s.a) && Valid(m, ss.a) && m[n].succ == s
    ensures At(g, Open(Bump(Bump(SetSucc(m, n, Tag(ss.a, s.fl)), ss.a, 1), s.a, -2), z), Thread([], InSucc(n, STest(ss), k)))
  {
    hide At, Then, Nothing, Drain, AllFit, Bump, SetSucc, RetPtr;
    DrainLaws();
    Turn(g, Open(m, z), InSucc(n, SCas(s, ss), k),
         Open(Bump(Bump(SetSucc(m, n, Tag(ss.a, s.fl)), ss.a, 1), s.a, -2), z), InSucc(n, STest(ss), k));
  }

  lemma SuccAtLinks(m: seq<Node>, n: nat, path: seq<nat>, j: nat)
    requires Valid(m, n) && j < |path| && Valid(m, path[0]) && Valid(m, path[j]) && m[n].succ.a == path[0]
    ensures var m' := SuccAt(m, n, path, j);
            && |m'| == |m| && m'[n].succ == Tag(path[j], m[n].succ.fl)
            && (forall x :: 0 <= x < |m| && x != n ==> m'[x].succ == m[x].succ)
            && (forall x :: 0 <= x < |m| ==> m'[x].pred == m[x].pred)
  {
    hide Bump, SetSucc;
  }

  lemma {:induction false} SuccFrom(g: Solo, m: seq<Node>, z: int, n: nat, path: seq<nat>, j: nat, k: PtrK)
    requires SuccChain(m, n, path) && j < |path|
    requires At(g, Open(SuccAt(m, n, path, j), z), Thread([], InSucc(n, STest(Tag(path[j], m[n].succ.fl)), k)))
    ensures At(g, Open(SuccMem(m, n, path), z), RetPtr(k, Tag(Last(path), m[n].succ.fl), Nothing()))
    decreases |path| - j
  {
    hide At, Nothing, RetPtr, SuccAt, Bump, SetSucc;
    var s, m' := Tag(path[j], m[n].succ.fl), SuccAt(m, n, path, j);
    SuccAtLinks(m, n, path, j);
    if j == |path| - 1 {
      SuccReturns(g, m', z, n, s, k);
    } else {
      var ss := Tag(path[j + 1], s.fl);
      SuccFollows(g, m', z, n, s, k);
      SuccSwaps(g, Bump(m', ss.a, 1), z, n, s, ss, k);
      SuccHop(m, n, path, j);
      SuccFrom(g, m, z, n, path, j + 1, k);
    }
  }

  /** succ() runs along its path and returns the end of it. */
  lemma SuccRun(g: Solo, m: seq<Node>, z: int, n: nat, path: seq<nat>, k: PtrK)
    requires SuccChain(m, n, path) && path != [] && At(g, Open(m, z), Thread([], InSucc(n, SStart, k)))
    ensures At(g, Open(SuccMem(m, n, path), z), RetPtr(k, Tag(Last(path), m[n].succ.fl), Nothing()))
  {
    hide At, Nothing, RetPtr;
    SuccStarts(g, m, z, n, k);
    SuccFrom(g, m, z, n, path, 0, k);
  }

  /** ll_succ of a node off the list. */
  lemma SuccNull(g: Solo, m: seq<Node>, z: int, n: nat, bag: multiset<nat>)
    requires At(g, Open(m, z), Thread([], InSucc(n, SStart, KApi(bag)))) && Valid(m, n) && m[n].succ.a == NIL
    ensures At(g, Open(m, z), Thread([], Idle(bag)))
  {
    hide At, Then, Nothing, Drain, AllFit;
    DrainLaws();
    Turn(g, Open(m, z), InSucc(n, SStart, KApi(bag)), Open(m, z), Idle(bag));
  }

  // ----- pred() -----

  lemma PredStarts(g: Solo, m: seq<Node>, z: int, n: nat, k: PtrK)
    requires At(g, Open(m, z), Thread([], InPred(n, PStart, k))) && Valid(m, n) && Valid(m, m[n].pred.a)
    ensures At(g, Open(Bump(m, m[n].pred.a, 1), z), Thread([], PredTop(n, m[n].pred, k)))
  {
    hide At, Then, Nothing, Drain, AllFit, Bump, RetPtr, PredTop;
    DrainLaws();
    Turn(g, Open(m, z), InPred(n, PStart, k), Open(Bump(m, m[n].pred.a, 1), z), PredTop(n, m[n].pred, k));
  }

  lemma PredReturns(g: Solo, m: seq<Node>, z: int, n: nat, p: Tag, k: PtrK)
    requires At(g, Open(m, z), Thread([], InPred(n, PTest(p), k))) && Valid(m, n) && Valid(m, p.a) && !Deleted(m, p.a)
    ensures At(g, Open(m, z), RetPtr(k, Tag(p.a, m[n].pred.fl), Nothing()))
  {
    hide At, Nothing, RetPtr, Drain, AllFit;
    DrainLaws();
    Turn(g, Open(m, z), InPred(n, PTest(p), k), Open(m, z), InPred(n, PLast(p), k));
    OneOp(g, Open(m, z), InPred(n, PLast(p), k));
  }

  lemma PredFollows(g: Solo, m: seq<Node>, z: int, n: nat, p: Tag, k: PtrK)
    requires At(g, Open(m, z), Thread([], InPred(n, PTest(p), k))) && Valid(m, p.a) && Deleted(m, p.a) && Valid(m, m[p.a].pred.a)
    ensures At(g, Open(Bump(m, m[p.a].pred.a, 1), z), Thread([], InPred(n, PSkipCas(p, m[p.a].pred), k)))
  {
    hide At, Then, Nothing, Drain, AllFit, Bump, RetPtr;
    DrainLaws();
    Turn(g, Open(m, z), InPred(n, PTest(p), k), Open(m, z), InPred(n, PSkip(p), k));
    Turn(g, Open(m, z), InPred(n, PSkip(p), k), Open(Bump(m, m[p.a].pred.a, 1), z), InPred(n, PSkipCas(p, m[p.a].pred), k));
  }

  lemma PredSwaps(g: Solo, m: seq<Node>, z: int, n: nat, p: Tag, pp: Tag, k: PtrK)
    requires At(g, Open(m, z), Thread([], InPred(n, PSkipCas(p, pp), k))) && Valid(m, n) && Valid(m, p.a) && Valid(m, pp.a) && m[n].pred == p
    ensures At(g, Open(Bump(Bump(SetPred(m, n, Tag(pp.a, p.fl)), pp.a, 1), p.a, -2), z), Thread([], PredTop(n, pp, k)))
  {
    hide At, Then, Nothing, Drain, AllFit, Bump, SetPred, RetPtr, PredTop;
    DrainLaws();
    Turn(g, Open(m, z), InPred(n, PSkipCas(p, pp), k),
         Open(Bump(Bump(SetPred(m, n, Tag(pp.a, p.fl)), pp.a, 1), p.a, -2), z), PredTop(n, pp, k));
  }

  /** From a test of the j-th node of its path pred() goes back to the end of it. */
  lemma {:induction false} PredBack(g: Solo, m: seq<Node>, z: int, n: nat, path: seq<nat>, j: nat, p: Tag, k: PtrK)
    requires PredWay(m, n, path) && j < |path| && (ForwardChain(m, n, path) ==> j == |path| - 1)
    requires p.a == path[j] && (Deleted(m, path[j]) ==> p.fl == m[n].pred.fl)
    requires At(g, Open(PredAt(m, n, path, j), z), Thread([], InPred(n, PTest(p), k)))
    ensures At(g, Open(PredMem(m, n, path), z), RetPtr(k, Tag(Last(path), m[n].pred.fl), Nothing()))
    decreases |path| - j
  {
    hide At, Nothing, RetPtr, PredAt, Bump, SetPred, PredWay, ForwardChain;
    PredWayStart(m, n, path);
    var m' := PredAt(m, n, path, j);
    PredAtLinks(m, n, path, j);
    if !Deleted(m, path[j]) {
      PredWayEnd(m, n, path, j);
      PredReturns(g, m', z, n, p, k);
    } else {
      PredWayBack(m, n, path, j);
      var pp := Tag(path[j + 1], true);
      PredFollows(g, m', z, n, p, k);
      PredSwaps(g, Bump(m', pp.a, 1), z, n, p, pp, k);
      PredHop(m, n, path, j);
      BackFlag(m, n, path, j);
      PredBack(g, m, z, n, path, j + 1, pp, k);
    }
  }

  /** A path with a second deleted node belongs to a node that is deleted itself. */
  lemma BackFlag(m: seq<Node>, n: nat, path: seq<nat>, j: nat)
    requires PredWay(m, n, path) && j + 1 < |path| && Valid(m, path[j]) && Valid(m, path[j + 1]) && Deleted(m, path[j])
    ensures Deleted(m, path[j + 1]) ==> m[n].pred.fl
  {
  }

  lemma BumpBack(m: seq<Node>, n: nat)
    requires Valid(m, n)
    ensures Bump(Bump(m, n, 1), n, -1) == m
  {
  }

  /** The search forward of pred() finds that n follows p. */
  lemma ForwardFound(g: Solo, m: seq<Node>, z: int, n: nat, p: Tag, fl: bool, k: PtrK)
    requires Valid(m, n) && At(g, Open(Bump(m, n, 1), z), RetPtr(KPred(n, p, k), Tag(n, fl), Nothing()))
    ensures At(g, Open(m, z), Thread([], InPred(n, PTest(p), k)))
  {
    hide At, Then, Nothing, Drain, AllFit, Bump;
    DrainLaws();
    Drained(g, Open(Bump(m, n, 1), z), Then(Nothing(), Rel(n, 1)), InPred(n, PTest(p), k));
    BumpBack(m, n);
  }

  /** It finds another node ps there and moves n->pred to it. */
  lemma ForwardMoves(g: Solo, m: seq<Node>, z: int, n: nat, p: nat, ps: Tag, k: PtrK)
    requires At(g, Open(m, z), RetPtr(KPred(n, Tag(p, false), k), ps, Nothing())) && Valid(m, n) && Valid(m, p) && Valid(m, ps.a)
    requires ps.a != n && m[n].pred == Tag(p, false)
    ensures At(g, Open(Bump(Bump(SetPred(m, n, Tag(ps.a, false)), ps.a, 1), p, -2), z),
               Thread([], InSucc(ps.a, SStart, KPred(n, Tag(ps.a, false), k))))
  {
    hide At, Then, Nothing, Drain, AllFit, Bump, SetPred;
    DrainLaws();
    Drained(g, Open(m, z), Nothing(), InPred(n, PCas(Tag(p, false), ps), k));
    Turn(g, Open(m, z), InPred(n, PCas(Tag(p, false), ps), k),
         Open(Bump(Bump(SetPred(m, n, Tag(ps.a, false)), ps.a, 1), p, -2), z),
         InSucc(ps.a, SStart, KPred(n, Tag(ps.a, false), k)));
  }

  /** From the j-th node of its path pred() searches forward, and then goes back. */
  lemma {:induction false} PredForward(g: Solo, m: seq<Node>, z: int, n: nat, path: seq<nat>, j: nat, k: PtrK)
    requires PredWay(m, n, path) && j < |path| && !m[n].pred.fl && (j == 0 || ForwardChain(m, n, path))
    requires At(g, Open(PredAt(m, n, path, j), z), Thread([], InSucc(path[j], SStart, KPred(n, Tag(path[j], false), k))))
    ensures At(g, Open(PredMem(m, n, path), z), RetPtr(k, Tag(Last(path), m[n].pred.fl), Nothing()))
    decreases |path| - j
  {
    hide At, Nothing, RetPtr, PredAt, Bump, SetPred, PredWay, ForwardChain, SuccChain, PredMem, SuccMem;
    PredWayStart(m, n, path);
    var m', p := PredAt(m, n, path, j), Tag(path[j], false);
    PredAtLinks(m, n, path, j);
    OnwardChain(m, n, path, j);
    var s := if ForwardChain(m, n, path) then Onward(n, path, j) else n;
    SuccRun(g, m', z, path[j], [s], KPred(n, p, k));
    SuccOne(m', path[j], s);
    var ps := Tag(s, m'[path[j]].succ.fl);
    if s == n {
      ForwardFound(g, m', z, n, p, ps.fl, k);
      PredBack(g, m, z, n, path, j, p, k);
    } else {
      ForwardMoves(g, Bump(m', s, 1), z, n, path[j], ps, k);
      PredHop(m, n, path, j);
      PredForward(g, m, z, n, path, j + 1, k);
    }
  }

  /** pred() runs along its path and returns the end of it. */
  lemma PredRun(g: Solo, m: seq<Node>, z: int, n: nat, path: seq<nat>, k: PtrK)
    requires PredWay(m, n, path) && path != [] && At(g, Open(m, z), Thread([], InPred(n, PStart, k)))
    ensures At(g, Open(PredMem(m, n, path), z), RetPtr(k, Tag(Last(path), m[n].pred.fl), Nothing()))
  {
    hide At, Nothing, RetPtr, PredAt, Bump, PredWay, ForwardChain;
    PredWayStart(m, n, path);
    PredStarts(g, m, z, n, k);
    PredAtStart(m, n, path);
    if m[n].pred.fl {
      PredBack(g, m, z, n, path, 0, m[n].pred, k);
    } else {
      PredForward(g, m, z, n, path, 0, k);
    }
  }

  lemma PredNull(g: Solo, m: seq<Node>, z: int, n: nat, bag: multiset<nat>)
    requires At(g, Open(m, z), Thread([], InPred(n, PStart, KApi(bag)))) && Valid(m, n) && m[n].pred.a == NIL
    ensures At(g, Open(m, z), Thread([], Idle(bag)))
  {
    hide At, Then, Nothing, Drain, AllFit;
    DrainLaws();
    Turn(g, Open(m, z), InPred(n, PStart, KApi(bag)), Open(m, z), Idle(bag));
  }

  /** ll_succ and ll_pred hand their result out, but not the head. */
  lemma ApiReturns(g: Solo, m: seq<Node>, z: int, e: Tag, bag: multiset<nat>)
    requires At(g, Open(m, z), RetPtr(KApi(bag), e, Nothing())) && Valid(m, e.a)
    ensures e.a == HEAD ==> At(g, Open(Bump(m, HEAD, -1), z), Thread([], Idle(bag)))
    ensures e.a != HEAD ==> At(g, Open(m, z), Thread([], Idle(bag + multiset{e.a})))
  {
    hide At, Then, Nothing, Drain, AllFit, Bump;
    DrainLaws();
    var th := RetPtr(KApi(bag), e, Nothing());
    Drained(g, Open(m, z), th.pend, th.ctl);
  }

  // ----- insert_between() -----

  /** n with its links to p and s, and a reference to each of them. */
  function AttachMem(m: seq<Node>, n: nat, p: nat, s: nat): (r: seq<Node>)
    requires Valid(m, n) && Valid(m, p) && Valid(m, s)
    ensures |r| == |m|
  {
    SetPred(SetSucc(Bump(Bump(m, p, 1), s, 1), n, Tag(s, true)), n, Tag(p, false))
  }

  /** A node off the list that is locked for insertion. */
  predicate InsertLocked(m: seq<Node>, n: nat) { Valid(m, n) && m[n].succ == Tag(NIL, true) && m[n].pred == Tag(NIL, false) }

  lemma InsertAttaches(g: Solo, m: seq<Node>, z: int, i: Ins, x: nat, y: nat)
    requires At(g, Open(m, z), Thread([], InInsert(i, BWait(x, y)))) && InsertLocked(m, i.n) && Valid(m, x) && Valid(m, y)
    ensures At(g, Open(AttachMem(m, i.n, InsertPred(i, x, y), InsertSucc(i, x, y)), z), Thread([], InInsert(i, BDeref(x, y))))
  {
    hide At, Then, Nothing, Drain, AllFit, Bump, SetSucc, SetPred;
    DrainLaws();
    var p, s := InsertPred(i, x, y), InsertSucc(i, x, y);
    var m1 := Bump(Bump(m, p, 1), s, 1);
    var m2 := SetSucc(m1, i.n, Tag(s, true));
    Turn(g, Open(m, z), InInsert(i, BWait(x, y)), Open(m1, z), InInsert(i, BSucc(x, y)));
    Turn(g, Open(m1, z), InInsert(i, BSucc(x, y)), Open(m2, z), InInsert(i, BPred(x, y)));
    Turn(g, Open(m2, z), InInsert(i, BPred(x, y)), Open(AttachMem(m, i.n, p, s), z), InInsert(i, BDeref(x, y)));
  }

  lemma InsertReads(g: Solo, m: seq<Node>, z: int, i: Ins, x: nat, y: nat)
    requires At(g, Open(m, z), Thread([], InInsert(i, BDeref(x, y)))) && Valid(m, InsertPred(i, x, y))
    requires Valid(m, m[InsertPred(i, x, y)].succ.a)
    ensures var p, s := InsertPred(i, x, y), InsertSucc(i, x, y);
            var ps := m[p].succ;
            At(g, Open(Bump(m, ps.a, 1), z), Thread([], InInsert(i, if ps.a != s then FSucc(x, y, ps.a) else BTest(x, y, ps))))
  {
    hide At, Then, Nothing, Drain, AllFit, Bump;
    DrainLaws();
    var p, s := InsertPred(i, x, y), InsertSucc(i, x, y);
    var ps := m[p].succ;
    Turn(g, Open(m, z), InInsert(i, BDeref(x, y)),
         Open(Bump(m, ps.a, 1), z), InInsert(i, if ps.a != s then FSucc(x, y, ps.a) else BTest(x, y, ps)));
  }

  /** p->succ leads to s and p is live: p->succ is moved to n. */
  lemma InsertLinks(g: Solo, m: seq<Node>, z: int, i: Ins, x: nat, y: nat, ps: Tag)
    requires At(g, Open(m, z), Thread([], InInsert(i, BTest(x, y, ps)))) && Valid(m, i.n) && Valid(m, ps.a)
    requires var p := InsertPred(i, x, y); Valid(m, p) && m[p].succ == ps && !Deleted(m, p)
    ensures var p := InsertPred(i, x, y);
            At(g, Open(Bump(Bump(SetSucc(m, p, Tag(i.n, ps.fl)), i.n, 1), ps.a, -2), z),
               Thread([], InPred(InsertSucc(i, x, y), PStart, KInsert(i, ALinked(x, y)))))
  {
    hide At, Then, Nothing, Drain, AllFit, Bump, SetSucc;
    DrainLaws();
    var p := InsertPred(i, x, y);
    var m1, locked := SetSucc(m, p, Tag(i.n, ps.fl)), Some(Fld(p, Succ));
    Turn(g, Open(m, z), InInsert(i, BTest(x, y, ps)), Open(m, z), InInsert(i, BCas(x, y, ps)));
    Turn(g, Open(m, z), InInsert(i, BCas(x, y, ps)), Scene(m1, locked, z), InInsert(i, BCheck(x, y, ps)));
    Turn(g, Scene(m1, locked, z), InInsert(i, BCheck(x, y, ps)),
         Open(Bump(Bump(m1, i.n, 1), ps.a, -2), z), InPred(InsertSucc(i, x, y), PStart, KInsert(i, ALinked(x, y))));
  }

  /** The insert drops its references: both neighbours if it holds the anchor, else the one it looked up, and n. */
  function DroppedMem(m: seq<Node>, i: Ins, x: nat, y: nat): (r: seq<Node>)
    requires Valid(m, i.n) && Valid(m, x) && Valid(m, y)
    ensures |r| == |m|
  {
    Bump(if i.own then Bump(Bump(m, InsertPred(i, x, y), -1), InsertSucc(i, x, y), -1) else Bump(m, y, -1), i.n, -1)
  }

  lemma InsertDone(g: Solo, m: seq<Node>, z: int, i: Ins, x: nat, y: nat, fl: bool)
    requires At(g, Open(m, z), RetPtr(KInsert(i, ALinked(x, y)), Tag(i.n, fl), Nothing()))
    requires Valid(m, i.n) && Valid(m, x) && Valid(m, y)
    ensures At(g, Open(DroppedMem(SetSucc(Bump(m, i.n, -1), i.n, Tag(m[i.n].succ.a, false)), i, x, y), z + 1), Thread([], Idle(i.bag)))
  {
    hide At, Then, Nothing, Drain, AllFit, Bump, SetSucc;
    DrainLaws();
    var th := RetPtr(KInsert(i, ALinked(x, y)), Tag(i.n, fl), Nothing());
    Drained(g, Open(m, z), th.pend, th.ctl);
  }

  /** insert_between that finds p and s to be neighbours. */
  lemma InsertJoins(g: Solo, m: seq<Node>, z: int, i: Ins, x: nat, y: nat)
    requires At(g, Open(m, z), Thread([], InInsert(i, BWait(x, y)))) && InsertLocked(m, i.n) && m[i.n].cnt >= 0
    requires Neighbours(m, InsertPred(i, x, y), InsertSucc(i, x, y)) && i.n != x && i.n != y
    ensures At(g, Open(DroppedMem(InsertMem(m, i.n, InsertPred(i, x, y), InsertSucc(i, x, y)), i, x, y), z + 1), Thread([], Idle(i.bag)))
  {
    hide At, Nothing, RetPtr, Bump, SetSucc, SetPred, InsertMem, PredMem, ForwardChain;
    var n, p, s := i.n, InsertPred(i, x, y), InsertSucc(i, x, y);
    var m1 := AttachMem(m, n, p, s);
    InsertAttaches(g, m, z, i, x, y);
    InsertReads(g, m1, z, i, x, y);
    InsertLinks(g, Bump(m1, s, 1), z, i, x, y, Tag(s, false));
    var h := HalfInsertMem(m, n, p, s);
    HalfInsert(m, n, p, s);
    PredRun(g, h, z, s, [p, n], KInsert(i, ALinked(x, y)));
    FullInsert(m, n, p, s);
    InsertDone(g, PredMem(h, s, [p, n]), z, i, x, y, h[s].pred.fl);
  }

  /** The links of n are taken back. */
  lemma InsertBacksOut(g: Solo, m: seq<Node>, z: int, i: Ins, x: nat, y: nat, ps: nat)
    requires At(g, Open(m, z), Thread([], InInsert(i, FSucc(x, y, ps)))) && Valid(m, i.n) && Valid(m, x) && Valid(m, y) && Valid(m, ps)
    requires m[i.n].succ == Tag(InsertSucc(i, x, y), true) && m[i.n].pred == Tag(InsertPred(i, x, y), false)
    ensures var p, s := InsertPred(i, x, y), InsertSucc(i, x, y);
            var m1 := SetPred(SetSucc(m, i.n, Tag(NIL, true)), i.n, Tag(NIL, false));
            At(g, Open(Bump(Bump(Bump(Bump(m1, p, -1), s, -1), ps, -1), y, -1), z),
               Thread([], if i.own then InInsert(i, IFix(x)) else LookUp(i, x)))
  {
    hide At, Then, Nothing, Drain, AllFit, Bump, SetSucc, SetPred, LookUp;
    DrainLaws();
    var p, s := InsertPred(i, x, y), InsertSucc(i, x, y);
    var m1 := SetSucc(m, i.n, Tag(NIL, true));
    var m2 := SetPred(m1, i.n, Tag(NIL, false));
    Turn(g, Open(m, z), InInsert(i, FSucc(x, y, ps)), Open(m1, z), InInsert(i, FPred(x, y, ps)));
    Turn(g, Open(m1, z), InInsert(i, FPred(x, y, ps)), Open(Bump(Bump(Bump(Bump(m2, p, -1), s, -1), ps, -1), y, -1), z),
         if i.own then InInsert(i, IFix(x)) else LookUp(i, x));
  }

  /** insert_between that finds p deleted or not before s: everything is put back, and y is dropped. */
  lemma InsertFails(g: Solo, m: seq<Node>, z: int, i: Ins, x: nat, y: nat)
    requires At(g, Open(m, z), Thread([], InInsert(i, BWait(x, y)))) && InsertLocked(m, i.n)
    requires Valid(m, x) && Valid(m, y) && i.n != x && i.n != y
    requires var p, s := InsertPred(i, x, y), InsertSucc(i, x, y); Valid(m, m[p].succ.a) && (m[p].succ.a != s || Deleted(m, p))
    ensures At(g, Open(Bump(m, y, -1), z), Thread([], if i.own then InInsert(i, IFix(x)) else LookUp(i, x)))
  {
    hide At, Nothing, Bump, SetSucc, SetPred, LookUp, Drain, AllFit;
    var n, p, s := i.n, InsertPred(i, x, y), InsertSucc(i, x, y);
    var ps := m[p].succ;
    var m1 := AttachMem(m, n, p, s);
    InsertAttaches(g, m, z, i, x, y);
    InsertReads(g, m1, z, i, x, y);
    if ps.a == s {
      DrainLaws();
      Turn(g, Open(Bump(m1, s, 1), z), InInsert(i, BTest(x, y, ps)), Open(Bump(m1, s, 1), z), InInsert(i, FSucc(x, y, s)));
    }
    InsertBacksOut(g, Bump(m1, ps.a, 1), z, i, x, y, ps.a);
    InsertUndone(m, n, p, s, ps.a);
  }

  // ----- llll_unlink() -----

  lemma UnlinkAbsent(g: Solo, m: seq<Node>, z: int, n: nat, uk: BoolK)
    requires At(g, Open(m, z), Thread([], InUnlink(n, UStart, uk))) && Valid(m, n) && m[n].succ.a == NIL
    ensures At(g, Open(m, z), Thread([], RetBool(uk, false, Nothing()).ctl))
  {
    hide At, Drain, AllFit, Nothing;
    DrainLaws();
    Turn(g, Open(m, z), InUnlink(n, UStart, uk), Open(m, z), RetBool(uk, false, Nothing()).ctl);
  }

  lemma UnlinkSearches(g: Solo, m: seq<Node>, z: int, n: nat, uk: BoolK)
    requires At(g, Open(m, z), Thread([], InUnlink(n, UStart, uk))) && Valid(m, n) && m[n].succ.a != NIL && !m[n].succ.fl
    ensures At(g, Open(m, z), Thread([], InPred(n, PStart, KUnlink(n, APred, uk))))
  {
    hide At, Drain, AllFit, Nothing;
    DrainLaws();
    Turn(g, Open(m, z), InUnlink(n, UStart, uk), Open(m, z), InUnlink(n, USpin, uk));
    Turn(g, Open(m, z), InUnlink(n, USpin, uk), Open(m, z), InPred(n, PStart, KUnlink(n, APred, uk)));
  }

  /** pred() finds n marked: somebody else unlinked it. */
  lemma UnlinkRefused(g: Solo, m: seq<Node>, z: int, n: nat, p: nat, uk: BoolK)
    requires At(g, Open(m, z), RetPtr(KUnlink(n, APred, uk), Tag(p, true), Nothing())) && Valid(m, p)
    ensures At(g, Open(Bump(m, p, -1), z), Thread([], RetBool(uk, false, Nothing()).ctl))
  {
    hide At, Then, Nothing, Drain, AllFit, Bump;
    DrainLaws();
    var q := Then(Nothing(), Rel(p, 1));
    assert RetBool(uk, false, q) == Thread(q, RetBool(uk, false, Nothing()).ctl);
    Drained(g, Open(m, z), q, RetBool(uk, false, Nothing()).ctl);
  }

  /** p leads to n, which is marked while p->succ is locked. */
  lemma UnlinkMarks(g: Solo, m: seq<Node>, z: int, n: nat, p: nat, uk: BoolK)
    requires At(g, Open(m, z), RetPtr(KUnlink(n, APred, uk), Tag(p, false), Nothing())) && Valid(m, n) && Valid(m, p)
    requires m[p].succ.a == n && m[n].pred == Tag(p, false)
    ensures At(g, Open(SetPred(m, n, Tag(p, true)), z), Thread([], InSucc(p, SStart, KUnlink(n, ASuccP(p), uk))))
  {
    hide At, Then, Nothing, Drain, AllFit, SetPred;
    DrainLaws();
    var locked := Scene(m, Some(Fld(p, Succ)), z);
    Drained(g, Open(m, z), Nothing(), InUnlink(n, ULock(p), uk));
    Turn(g, Open(m, z), InUnlink(n, ULock(p), uk), locked, InUnlink(n, UMark(p), uk));
    Turn(g, locked, InUnlink(n, UMark(p), uk), Open(SetPred(m, n, Tag(p, true)), z), InSucc(p, SStart, KUnlink(n, ASuccP(p), uk)));
  }

  lemma UnlinkSkipped(g: Solo, m: seq<Node>, z: int, n: nat, p: nat, s: Tag, uk: BoolK)
    requires At(g, Open(m, z), RetPtr(KUnlink(n, ASuccP(p), uk), s, Nothing())) && Valid(m, p) && Valid(m, s.a)
    ensures At(g, Open(Bump(Bump(m, s.a, -1), p, -1), z - 1), Thread([], InSucc(n, SStart, KUnlink(n, ASucc, uk))))
  {
    hide At, Then, Nothing, Drain, AllFit, Bump;
    DrainLaws();
    var q := Then(Then(Then(Nothing(), Rel(s.a, 1)), Rel(p, 1)), Resize(-1));
    Drained(g, Open(m, z), q, InSucc(n, SStart, KUnlink(n, ASucc, uk)));
  }

  /** From the predecessor p that pred() found to the walk, at the successor s of n. */
  lemma UnlinkDetaches(g: Solo, m: seq<Node>, z: int, p: nat, n: nat, s: nat, uk: BoolK)
    requires Between(m, p, n, s) && At(g, Open(Bump(m, p, 1), z), RetPtr(KUnlink(n, APred, uk), Tag(p, false), Nothing()))
    ensures At(g, Open(Bump(HalfUnlinkMem(m, p, n, s), s, 1), z - 1), Thread([], InUnlink(n, ULoop(s), uk)))
  {
    hide At, Nothing, RetPtr, Bump, SetPred, SetSucc, SuccMem, SuccChain, HalfUnlinkMem;
    SkipMarked(m, p, n, s);
    HalfUnlinked(m, p, n, s);
    var m1 := SetPred(Bump(m, p, 1), n, Tag(p, true));
    UnlinkMarks(g, Bump(m, p, 1), z, n, p, uk);
    SuccRun(g, m1, z, p, [n, s], KUnlink(n, ASuccP(p), uk));
    UnlinkSkipped(g, SuccMem(m1, p, [n, s]), z, n, p, Tag(s, m1[p].succ.fl), uk);
    var h := HalfUnlinkMem(m, p, n, s);
    SuccRun(g, h, z - 1, n, [s], KUnlink(n, ASucc, uk));
    SuccOne(h, n, s);
    WalkEntered(g, Bump(h, s, 1), z - 1, n, Tag(s, h[n].succ.fl), uk);
  }

  lemma WalkEntered(g: Solo, m: seq<Node>, z: int, n: nat, s: Tag, uk: BoolK)
    requires At(g, Open(m, z), RetPtr(KUnlink(n, ASucc, uk), s, Nothing()))
    ensures At(g, Open(m, z), Thread([], InUnlink(n, ULoop(s.a), uk)))
  {
    hide At, Drain, AllFit, Nothing;
    DrainLaws();
    Drained(g, Open(m, z), Nothing(), InUnlink(n, ULoop(s.a), uk));
  }

  /** The walk looks at node i: while n is referenced by others, i->pred is compared with n. */
  lemma WalkPeeks(g: Solo, m: seq<Node>, z: int, n: nat, i: nat, uk: BoolK)
    requires At(g, Open(m, z), Thread([], InUnlink(n, ULoop(i), uk))) && Valid(m, n) && Valid(m, i) && m[n].cnt > 1
    ensures At(g, Open(m, z), if m[i].pred.a == n then Thread(Nothing(), InPred(i, PStart, KUnlink(n, APredI(i), uk)))
                              else UnlinkAdvance(n, i, uk, Nothing()))
  {
    hide At, Drain, AllFit, Nothing, UnlinkAdvance;
    DrainLaws();
    Turn(g, Open(m, z), InUnlink(n, ULoop(i), uk), Open(m, z), InUnlink(n, UPeek(i), uk));
    OneOp(g, Open(m, z), InUnlink(n, UPeek(i), uk));
  }

  lemma WalkEnds(g: Solo, m: seq<Node>, z: int, n: nat, i: nat, uk: BoolK)
    requires Valid(m, n) && Valid(m, i) && Bump(m, i, 1)[n].cnt <= 1
    requires At(g, Open(Bump(m, i, 1), z), Thread([], InUnlink(n, ULoop(i), uk)))
    ensures At(g, Open(m, z), Thread([], RetBool(uk, true, Nothing()).ctl))
  {
    hide At, Then, Nothing, Drain, AllFit, Bump;
    DrainLaws();
    BumpBack(m, i);
    Turn(g, Open(Bump(m, i, 1), z), InUnlink(n, ULoop(i), uk), Open(m, z), RetBool(uk, true, Nothing()).ctl);
  }

  /** i is done: the walk goes on to its successor, or is over at the head. */
  lemma WalkAdvances(g: Solo, v: Scene, q: seq<Micro>, m: seq<Node>, z: int, n: nat, i: nat, uk: BoolK)
    requires At(g, v, UnlinkAdvance(n, i, uk, q)) && Valid(m, n) && Valid(m, i)
    requires |v.m| == |m| && AllFit(|m|, q) && Drain(v, q) == Open(Bump(m, i, 1), z)
    ensures i == HEAD ==> At(g, Open(m, z), Thread([], RetBool(uk, true, Nothing()).ctl))
    ensures i != HEAD ==> At(g, Open(Bump(m, i, 1), z), Thread([], InSucc(i, SStart, KUnlink(n, ASuccI(i), uk))))
  {
    hide At, Then, Nothing, Drain, AllFit, Bump;
    DrainLaws();
    if i == HEAD {
      var q' := Then(Then(q, Rel(i, 1)), Returned(n));
      assert RetBool(uk, true, q') == Thread(q', RetBool(uk, true, Nothing()).ctl);
      BumpBack(m, i);
      Drained(g, v, q', RetBool(uk, true, Nothing()).ctl);
    } else {
      Drained(g, v, q, InSucc(i, SStart, KUnlink(n, ASuccI(i), uk)));
    }
  }

  lemma WalkSteps(g: Solo, m: seq<Node>, z: int, n: nat, i: nat, s: Tag, uk: BoolK)
    requires At(g, Open(m, z), RetPtr(KUnlink(n, ASuccI(i), uk), s, Nothing())) && Valid(m, i)
    ensures At(g, Open(Bump(m, i, -1), z), Thread([], InUnlink(n, ULoop(s.a), uk)))
  {
    hide At, Then, Nothing, Drain, AllFit, Bump;
    DrainLaws();
    Drained(g, Open(m, z), Then(Nothing(), Rel(i, 1)), InUnlink(n, ULoop(s.a), uk));
  }

  /** The walk from number j of the ring on, along a list that n has already left. */
  lemma {:induction false} WalkLoop(g: Solo, m: seq<Node>, z: int, order: seq<nat>, held: seq<nat>, place: seq<real>,
                                    n: nat, j: nat, uk: BoolK)
    requires Represents(m, order, held, place) && HEAD < n < |m| && Deleted(m, n) && 0 < j < |order| + 2 && Valid(m, Ring(order)[j])
    requires At(g, Open(Bump(m, Ring(order)[j], 1), z), Thread([], InUnlink(n, ULoop(Ring(order)[j]), uk)))
    ensures At(g, Open(m, z), Thread([], RetBool(uk, true, Nothing()).ctl))
    decreases |order| + 2 - j, 1
  {
    hide At, Nothing, Represents, RetBool, UnlinkAdvance, Bump, Ring, Drain, AllFit, SuccChain;
    var i := Ring(order)[j];
    WalkStep(m, order, held, place, n, j);
    assert Bump(m, i, 1)[i].pred == m[i].pred;
    if Bump(m, i, 1)[n].cnt > 1 {
      WalkPeeks(g, Bump(m, i, 1), z, n, i, uk);
      DrainLaws();
      WalkAdvances(g, Open(Bump(m, i, 1), z), Nothing(), m, z, n, i, uk);
      if i != HEAD {
        WalkOn(g, m, z, order, held, place, n, j, uk);
      }
    } else {
      WalkEnds(g, m, z, n, i, uk);
    }
  }

  lemma {:induction false} WalkOn(g: Solo, m: seq<Node>, z: int, order: seq<nat>, held: seq<nat>, place: seq<real>,
                                  n: nat, j: nat, uk: BoolK)
    requires Represents(m, order, held, place) && HEAD < n < |m| && Deleted(m, n) && 0 < j < |order| + 2
    requires Valid(m, Ring(order)[j]) && Ring(order)[j] != HEAD
    requires var i := Ring(order)[j]; At(g, Open(Bump(m, i, 1), z), Thread([], InSucc(i, SStart, KUnlink(n, ASuccI(i), uk))))
    ensures At(g, Open(m, z), Thread([], RetBool(uk, true, Nothing()).ctl))
    decreases |order| + 2 - j, 0
  {
    hide At, Nothing, Represents, RetPtr, RetBool, Bump, Ring, SuccChain, SuccMem;
    var i := Ring(order)[j];
    WalkStep(m, order, held, place, n, j);
    var i', m1 := Ring(order)[j + 1], Bump(m, i, 1);
    SuccRun(g, m1, z, i, [i'], KUnlink(n, ASuccI(i), uk));
    SuccOne(m1, i, i');
    WalkSteps(g, Bump(m1, i', 1), z, n, i, Tag(i', m1[i].succ.fl), uk);
    WalkLoop(g, m, z, order, held, place, n, j + 1, uk);
  }

  /** The walk repairs the successor of n, and then goes once around the list at most. */
  lemma {:induction false} WalkRun(g: Solo, m: seq<Node>, z: int, order: seq<nat>, held: seq<nat>, place: seq<real>, k: nat, uk: BoolK)
    requires Represents(m, order, held, place) && k < |order| && order[k] < |m| && held[order[k]] >= 1
    requires Between(m, Ring(order)[k], order[k], Ring(order)[k + 2])
    requires var p, n, s := Ring(order)[k], order[k], Ring(order)[k + 2];
             At(g, Open(Bump(HalfUnlinkMem(m, p, n, s), s, 1), z), Thread([], InUnlink(n, ULoop(s), uk)))
    ensures var p, n, s := Ring(order)[k], order[k], Ring(order)[k + 2];
            At(g, Open(UnlinkMem(m, n, p, s), z), Thread([], RetBool(uk, true, Nothing()).ctl))
  {
    hide At, Then, Nothing, Represents, RetBool, UnlinkAdvance, Bump, Ring, Drain, AllFit, PredMem, PredChain, ForwardChain,
         HalfUnlinkMem, UnlinkMem, Remove, Counted, Neighbours;
    var p, n, s, rest := Ring(order)[k], order[k], Ring(order)[k + 2], Remove(order, k);
    HalfUnlinked(m, p, n, s);
    var h, u := Bump(HalfUnlinkMem(m, p, n, s), s, 1), UnlinkMem(m, n, p, s);
    RepairSuccessor(m, p, n, s);
    AfterUnlinking(m, order, held, place, k);
    assert h[s].pred.a == n && h[n].cnt > 1 by { StillReferenced(m, p, n, s); }
    WalkPeeks(g, h, z, n, s, uk);
    DrainLaws();
    Drained(g, Open(h, z), Nothing(), InPred(s, PStart, KUnlink(n, APredI(s), uk)));
    PredRun(g, h, z, s, [n, p], KUnlink(n, APredI(s), uk));
    WalkAdvances(g, Open(PredMem(h, s, [n, p]), z), Then(Nothing(), Rel(p, 1)), u, z, n, s, uk);
    if s != HEAD {
      WalkOn(g, u, z, rest, held, place, n, k + 1, uk);
    }
  }

  lemma StillReferenced(m: seq<Node>, p: nat, n: nat, s: nat)
    requires Between(m, p, n, s)
    ensures var h := Bump(HalfUnlinkMem(m, p, n, s), s, 1); h[s].pred.a == n && h[n].cnt > 1
  {
    hide Bump, SetPred, SetSucc;
  }

  lemma AfterUnlinking(m: seq<Node>, order: seq<nat>, held: seq<nat>, place: seq<real>, k: nat)
    requires Represents(m, order, held, place) && k < |order| && order[k] < |m| && held[order[k]] >= 1
    ensures Ring(order)[k + 1] == order[k] && Ring(Remove(order, k))[k + 1] == Ring(order)[k + 2] && order[k] > HEAD
    ensures Between(m, Ring(order)[k], order[k], Ring(order)[k + 2])
    ensures var u := UnlinkMem(m, order[k], Ring(order)[k], Ring(order)[k + 2]);
            Represents(u, Remove(order, k), held, place) && Deleted(u, order[k]) && u[order[k]].cnt == m[order[k]].cnt - 2
  {
    hide UnlinkMem, CountOk, Linked, Sorted, RestOk, Remove, Ring;
    OnRing(m, order, place, k);
    OrderBetween(m, order, held, place, k);
    UnlinkRepresents(m, order, held, place, k);
    UnlinkedNode(m, order[k], Ring(order)[k], Ring(order)[k + 2]);
  }

  // ----- unlink_release() -----

  /** References to n and, if it is not the head, to the anchor. */
  function StartMem(m: seq<Node>, i: Ins): (r: seq<Node>)
    requires Valid(m, i.n) && (i.own ==> Valid(m, i.rel))
    ensures |r| == |m|
  {
    if i.own then Bump(Bump(m, i.n, 1), i.rel, 1) else Bump(m, i.n, 1)
  }

  /** An unlinked node that only its caller refers to. */
  predicate Idles(m: seq<Node>, n: nat, p: nat, s: nat) {
    && Valid(m, n) && Valid(m, p) && Valid(m, s) && p != n && s != n && m[n].cnt <= 1
    && m[n].succ == Tag(s, false) && m[n].pred == Tag(p, true)
  }

  lemma ReleaseLoads(g: Solo, m: seq<Node>, z: int, n: nat, p: nat, s: nat, ins: bool, rk: ReleaseK)
    requires Idles(m, n, p, s) && At(g, Open(m, z), Thread([], InRelease(n, ins, RWait, rk)))
    ensures At(g, Open(SetSucc(m, n, Tag(s, ins)), z), Thread([], InRelease(n, ins, RCasS(s, p), rk)))
  {
    hide At, Drain, AllFit, Nothing, SetSucc;
    DrainLaws();
    Turn(g, Open(m, z), InRelease(n, ins, RWait, rk), Open(m, z), InRelease(n, ins, RLoadS, rk));
    Turn(g, Open(m, z), InRelease(n, ins, RLoadS, rk), Open(m, z), InRelease(n, ins, RLoadP(s), rk));
    var next := InRelease(n, ins, if ins then RFlag(s, p) else RCasS(s, p), rk);
    Turn(g, Open(m, z), InRelease(n, ins, RLoadP(s), rk), Open(m, z), next);
    if ins {
      Turn(g, Open(m, z), next, Open(SetSucc(m, n, Tag(s, true)), z), InRelease(n, ins, RCasS(s, p), rk));
    } else {
      SameSucc(m, n, s);
    }
  }

  lemma SameSucc(m: seq<Node>, n: nat, s: nat)
    requires Valid(m, n) && m[n].succ == Tag(s, false)
    ensures SetSucc(m, n, Tag(s, false)) == m
  {
  }

  /** What unlink_release queues at its end. */
  function LastMicros(n: nat, p: nat): seq<Micro> {
    Then(Then(Then(Nothing(), Unflag(Fld(n, Pred))), Unlock(Fld(n, Pred))), Rel(p, 1))
  }

  /** n->succ and n->pred are cleared; what is queued is the rest of the release. */
  lemma ReleaseClears(g: Solo, m: seq<Node>, z: int, n: nat, p: nat, s: nat, ins: bool, rk: ReleaseK)
    requires Valid(m, n) && Valid(m, p) && Valid(m, s) && m[n].succ == Tag(s, ins) && m[n].pred == Tag(p, true)
    requires At(g, Open(m, z), Thread([], InRelease(n, ins, RCasS(s, p), rk)))
    ensures var m1 := SetPred(Bump(SetSucc(m, n, Tag(NIL, ins)), s, -1), n, Tag(NIL, true));
            At(g, Scene(m1, Some(Fld(n, Pred)), z), RetRelease(n, rk, LastMicros(n, p)))
  {
    hide At, Then, Nothing, Drain, AllFit, Bump, SetSucc, SetPred, RetRelease;
    DrainLaws();
    var m1 := Bump(SetSucc(m, n, Tag(NIL, ins)), s, -1);
    Turn(g, Open(m, z), InRelease(n, ins, RCasS(s, p), rk), Open(m1, z), InRelease(n, ins, RCasP(p), rk));
    OneOp(g, Open(m1, z), InRelease(n, ins, RCasP(p), rk));
  }

  lemma LastOneByOne(v: Scene, n: nat, p: nat)
    requires Valid(v.m, n) && Valid(v.m, p)
    ensures AllFit(|v.m|, LastMicros(n, p))
    ensures Drain(v, LastMicros(n, p)) == Do(Do(Do(v, Unflag(Fld(n, Pred))), Unlock(Fld(n, Pred))), Rel(p, 1))
  {
    hide Then, Nothing, Drain, AllFit, Do;
    DrainLaws();
  }

  lemma LastDone(m: seq<Node>, z: int, n: nat, p: nat)
    requires Valid(m, n) && Valid(m, p)
    ensures Do(Do(Do(Scene(m, Some(Fld(n, Pred)), z), Unflag(Fld(n, Pred))), Unlock(Fld(n, Pred))), Rel(p, 1))
         == Open(Bump(SetPred(m, n, Tag(m[n].pred.a, false)), p, -1), z)
  {
    hide Bump, SetPred;
  }

  /** Draining them completes the release of n in memory. */
  lemma LastDrain(m: seq<Node>, z: int, n: nat, p: nat, s: nat, ins: bool)
    requires Idles(m, n, p, s)
    ensures var m1 := SetPred(Bump(SetSucc(SetSucc(m, n, Tag(s, ins)), n, Tag(NIL, ins)), s, -1), n, Tag(NIL, true));
            && AllFit(|m|, LastMicros(n, p))
            && Drain(Scene(m1, Some(Fld(n, Pred)), z), LastMicros(n, p)) == Open(ReleaseMem(m, n, p, s, ins), z)
  {
    hide LastMicros, Drain, AllFit, Do, Bump, SetSucc, SetPred, ReleaseMem;
    var m1 := SetPred(Bump(SetSucc(SetSucc(m, n, Tag(s, ins)), n, Tag(NIL, ins)), s, -1), n, Tag(NIL, true));
    LastOneByOne(Scene(m1, Some(Fld(n, Pred)), z), n, p);
    LastDone(m1, z, n, p);
    ReleaseIs(m, n, p, s, ins);
  }

  lemma ReleaseIs(m: seq<Node>, n: nat, p: nat, s: nat, ins: bool)
    requires Idles(m, n, p, s)
    ensures var m1 := SetPred(Bump(SetSucc(SetSucc(m, n, Tag(s, ins)), n, Tag(NIL, ins)), s, -1), n, Tag(NIL, true));
            Bump(SetPred(m1, n, Tag(NIL, false)), p, -1) == ReleaseMem(m, n, p, s, ins) && m1[n].pred.a == NIL
  {
    hide Bump, SetSucc, SetPred;
  }

  /** unlink_release for a caller who gives its reference up, keeps it, or goes on to insert n. */
  lemma ReleaseRun(g: Solo, m: seq<Node>, z: int, n: nat, p: nat, s: nat, ins: bool, rk: ReleaseK)
    requires Idles(m, n, p, s) && At(g, Open(m, z), Thread([], InRelease(n, ins, RWait, rk)))
    requires rk.KReinsert? ==> rk.i.n == n && (rk.i.own ==> Valid(m, rk.i.rel))
    ensures var r := ReleaseMem(m, n, p, s, ins);
            match rk
            case KDone(bag) => At(g, Open(Bump(r, n, -1), z), Thread([], Idle(bag)))
            case KKeep(bag) => At(g, Open(r, z), Thread([], Idle(bag + multiset{n})))
            case KReinsert(i) => At(g, Open(StartMem(r, i), z), Thread([], LookUp(i.(bag := i.bag + multiset{n}), i.rel)))
  {
    hide At, Then, Nothing, Drain, AllFit, Bump, SetSucc, SetPred, ReleaseMem, LookUp, LastMicros;
    ReleaseLoads(g, m, z, n, p, s, ins, rk);
    ReleaseClears(g, SetSucc(m, n, Tag(s, ins)), z, n, p, s, ins, rk);
    LastDrain(m, z, n, p, s, ins);
    DrainLaws();
    var m1 := SetPred(Bump(SetSucc(SetSucc(m, n, Tag(s, ins)), n, Tag(NIL, ins)), s, -1), n, Tag(NIL, true));
    var th := RetRelease(n, rk, LastMicros(n, p));
    Drained(g, Scene(m1, Some(Fld(n, Pred)), z), th.pend, th.ctl);
  }

  // ----- ll_pop_front() and ll_pop_back() -----

  lemma PopReturns(g: Solo, m: seq<Node>, z: int, e: Tag, front: bool, wait: bool, bag: multiset<nat>)
    requires At(g, Open(m, z), RetPtr(KPop(front, wait, bag), e, Nothing())) && Valid(m, e.a)
    ensures e.a == HEAD ==> At(g, Open(Bump(m, HEAD, -1), z), Thread([], Idle(bag)))
    ensures e.a != HEAD ==> At(g, Open(m, z), Thread([], InUnlink(e.a, UStart, KPopped(e.a, front, wait, bag))))
  {
    hide At, Then, Nothing, Drain, AllFit, Bump;
    DrainLaws();
    var th := RetPtr(KPop(front, wait, bag), e, Nothing());
    Drained(g, Open(m, z), th.pend, th.ctl);
  }

  // ----- The start of an insertion -----

  lemma InsertStarts(g: Solo, m: seq<Node>, z: int, i: Ins)
    requires At(g, Open(m, z), Thread([], InInsert(i, ILock(false)))) && Valid(m, i.n) && (i.own ==> Valid(m, i.rel))
    requires m[i.n].succ == m[i.n].pred == Tag(NIL, false)
    ensures At(g, Open(StartMem(SetSucc(m, i.n, Tag(NIL, true)), i), z), Thread([], LookUp(i, i.rel)))
  {
    hide At, Then, Nothing, Drain, AllFit, Bump, SetSucc, LookUp;
    DrainLaws();
    var m1 := SetSucc(m, i.n, Tag(NIL, true));
    Turn(g, Open(m, z), InInsert(i, ILock(false)), Open(m1, z), InInsert(i, IWait));
    Turn(g, Open(m1, z), InInsert(i, IWait), Open(StartMem(m1, i), z), LookUp(i, i.rel));
  }

  lemma InsertRefused(g: Solo, m: seq<Node>, z: int, i: Ins)
    requires At(g, Open(m, z), Thread([], InInsert(i, ILock(false)))) && Valid(m, i.n) && m[i.n].succ != Tag(NIL, false)
    ensures At(g, Open(m, z), Thread([], Idle(i.bag)))
  {
    hide At, Nothing, Drain, AllFit;
    DrainLaws();
    Turn(g, Open(m, z), InInsert(i, ILock(false)), Open(m, z), Idle(i.bag));
  }

  /** The neighbour of the anchor x has been looked up. */
  lemma LookReturns(g: Solo, m: seq<Node>, z: int, i: Ins, x: nat, v: Tag)
    requires At(g, Open(m, z), RetPtr(KInsert(i, ALook(x)), v, Nothing()))
    ensures At(g, Open(m, z), Thread([], InInsert(i, BWait(x, v.a))))
  {
    hide At, Nothing, Drain, AllFit;
    DrainLaws();
    Drained(g, Open(m, z), Nothing(), InInsert(i, BWait(x, v.a)));
  }

  /** The anchor turns out to be deleted: the insert goes on from its live predecessor or successor. */
  lemma FixStarts(g: Solo, m: seq<Node>, z: int, i: Ins, x: nat)
    requires At(g, Open(m, z), Thread([], InInsert(i, IFix(x)))) && Valid(m, x) && Deleted(m, x)
    ensures At(g, Open(m, z), Thread([], if i.after then InPred(x, PStart, KInsert(i, AFix(x))) else InSucc(x, SStart, KInsert(i, AFix(x)))))
  {
    hide At, Nothing, Drain, AllFit;
    DrainLaws();
    Turn(g, Open(m, z), InInsert(i, IFix(x)),
         Open(m, z), if i.after then InPred(x, PStart, KInsert(i, AFix(x))) else InSucc(x, SStart, KInsert(i, AFix(x))));
  }

  lemma FixReturns(g: Solo, m: seq<Node>, z: int, i: Ins, x: nat, v: Tag)
    requires At(g, Open(m, z), RetPtr(KInsert(i, AFix(x)), v, Nothing())) && Valid(m, x)
    ensures At(g, Open(Bump(m, x, -1), z), Thread([], LookUp(i, v.a)))
  {
    hide At, Then, Nothing, Drain, AllFit, Bump, LookUp;
    DrainLaws();
    Drained(g, Open(m, z), Then(Nothing(), Rel(x, 1)), LookUp(i, v.a));
  }

  // ----- ll_unlink_robust() -----

  lemma RobustLocks(g: Solo, m: seq<Node>, z: int, n: nat, bag: multiset<nat>)
    requires At(g, Open(m, z), Thread([], InRobust(n, bag, XLock(false)))) && Valid(m, n) && m[n].succ == m[n].pred == Tag(NIL, false)
    ensures At(g, Open(SetSucc(m, n, Tag(NIL, true)), z), Thread([], Idle(bag + multiset{n})))
  {
    hide At, Nothing, Drain, AllFit, SetSucc;
    DrainLaws();
    var m1 := SetSucc(m, n, Tag(NIL, true));
    Turn(g, Open(m, z), InRobust(n, bag, XLock(false)), Open(m1, z), InRobust(n, bag, XWait));
    Turn(g, Open(m1, z), InRobust(n, bag, XWait), Open(m1, z), Idle(bag + multiset{n}));
  }

  lemma RobustUnlinks(g: Solo, m: seq<Node>, z: int, n: nat, bag: multiset<nat>)
    requires At(g, Open(m, z), Thread([], InRobust(n, bag, XLock(false)))) && Valid(m, n) && m[n].succ.a != NIL
    ensures At(g, Open(m, z), Thread([], InUnlink(n, UStart, KRobust(n, bag))))
  {
    hide At, Nothing, Drain, AllFit;
    DrainLaws();
    Turn(g, Open(m, z), InRobust(n, bag, XLock(false)), Open(m, z), InUnlink(n, UStart, KRobust(n, bag)));
  }
}
