/**
 Which nodes a thread of the list machine touches: every node it reads or writes is the head, or one it
 holds a reference to, or one that a link it has locked leads to; the exceptions are named.
 */
module LlTouch {
  import opened LlTypes
  import opened LlMachine
  import opened LlLedger
  import opened LlSafety
  import opened LlRelease

  // ----- The shape of queues -----

  /**
   Unlocking comes before giving back, a reference is taken only under the lock that follows, the deletion
   mark is cleared first, and the insert mark is cleared before the reference to that node is given back.
   */
  predicate Tidy(q: seq<Micro>) {
    && (forall i :: 0 <= i < |q| && q[i].Rel? ==> q[i].k >= 1)
    && (forall i, j :: 0 <= j < i < |q| && q[i].Unlock? ==> !q[j].Rel?)
    && (forall i :: 0 <= i < |q| && q[i].Acq? ==> i == 0 && |q| > 1 && q[1].Unlock?)
    && (forall i :: 0 <= i < |q| && q[i].Unflag? ==>
          if q[i].f.side == Pred then i == 0 else i < |q| - 1 && !q[0].Acq? && q[|q| - 1] == Rel(q[i].f.node, 1))
  }

  lemma {:induction false} RetBoolTidy(k: BoolK, b: bool, q: seq<Micro>)
    ensures RetBool(k, b, q).pend == q
  {
  }

  lemma {:induction false} UnlinkGotTidy(n: nat, at: UnlinkAt, k: BoolK, v: Tag, q: seq<Micro>)
    requires q == [] || (|q| == 1 && q[0].Unlock?)
    ensures Tidy(UnlinkGot(n, at, k, v, q).pend)
  {
    hide Net, Acqs, Unlocks, Returneds, Unflags, RetBool;
    match at
    case APred =>
      RetBoolTidy(k, false, q);
      RetBoolTidy(k, false, Then(q, Rel(v.a, 1)));
    case APredI(i) => RetBoolTidy(k, true, Then(Then(Then(q, Rel(v.a, 1)), Rel(i, 1)), Returned(n)));
    case _ =>
  }

  lemma {:induction false} InsertGotTidy(i: Ins, at: InsertAt, v: Tag, q: seq<Micro>)
    requires q == [] || (|q| == 1 && q[0].Unlock?)
    ensures Tidy(InsertGot(i, at, v, q).pend)
  {
    hide Net, Acqs, Unlocks, Returneds, Unflags, Tidy;
    match at
    case ALook(x) => FewTidy(q, 0);
    case AFix(x) => FewTidy(q, x);
    case ALinked(x, y) =>
      if i.own {
        OwnTidy(q, v.a, i.n, InsertPred(i, x, y), InsertSucc(i, x, y));
      } else {
        OtherTidy(q, v.a, i.n, y);
      }
  }

  lemma FewTidy(q: seq<Micro>, x: nat)
    requires q == [] || (|q| == 1 && q[0].Unlock?)
    ensures Tidy(q) && Tidy(Then(q, Rel(x, 1)))
  {
    hide Net, Acqs, Unlocks, Returneds, Unflags;
  }

  lemma OwnTidy(q: seq<Micro>, v: nat, n: nat, p: nat, s: nat)
    requires q == [] || (|q| == 1 && q[0].Unlock?)
    ensures var q' := Then(Then(Then(q, Rel(v, 1)), Resize(1)), Unflag(Fld(n, Succ)));
            Tidy(Then(Then(Then(q', Rel(p, 1)), Rel(s, 1)), Rel(n, 1)))
  {
    hide Net, Acqs, Unlocks, Returneds, Unflags;
    var q' := Then(Then(Then(q, Rel(v, 1)), Resize(1)), Unflag(Fld(n, Succ)));
    var all := Then(Then(Then(q', Rel(p, 1)), Rel(s, 1)), Rel(n, 1));
    assert all == q + [Rel(v, 1), Resize(1), Unflag(Fld(n, Succ)), Rel(p, 1), Rel(s, 1), Rel(n, 1)];
  }

  lemma OtherTidy(q: seq<Micro>, v: nat, n: nat, y: nat)
    requires q == [] || (|q| == 1 && q[0].Unlock?)
    ensures var q' := Then(Then(Then(q, Rel(v, 1)), Resize(1)), Unflag(Fld(n, Succ))); Tidy(Then(Then(q', Rel(y, 1)), Rel(n, 1)))
  {
    hide Net, Acqs, Unlocks, Returneds, Unflags;
    var q' := Then(Then(Then(q, Rel(v, 1)), Resize(1)), Unflag(Fld(n, Succ)));
    assert Then(Then(q', Rel(y, 1)), Rel(n, 1)) == q + [Rel(v, 1), Resize(1), Unflag(Fld(n, Succ)), Rel(y, 1), Rel(n, 1)];
  }

  lemma {:induction false} RetPtrTidy(k: PtrK, v: Tag, q: seq<Micro>)
    requires q == [] || (|q| == 1 && q[0].Unlock?)
    ensures Tidy(RetPtr(k, v, q).pend)
  {
    hide Net, Acqs, Unlocks, Returneds, Unflags, UnlinkGot, InsertGot;
    match k
    case KUnlink(n, at, k') => UnlinkGotTidy(n, at, k', v, q);
    case KInsert(i, at) => InsertGotTidy(i, at, v, q);
    case _ =>
  }

  lemma {:induction false} SuccTidy(c: Ctl, v: Ptr, ok: bool)
    requires c.InSucc?
    ensures Tidy(AfterSucc(c.n, c.spc, c.k, v, ok).pend)
  {
    hide Net, Acqs, Unlocks, Returneds, Unflags, RetPtr;
    match c.spc
    case SStart => if v.a == NIL { RetPtrTidy(c.k, Strip(v), Deref(Fld(c.n, Succ), v)); }
    case STest(s) => RetPtrTidy(c.k, s, Nothing());
    case _ =>
  }

  lemma {:induction false} PredTidy(c: Ctl, v: Ptr, ok: bool)
    requires c.InPred?
    ensures Tidy(AfterPred(c.n, c.ppc, c.k, v, ok).pend)
  {
    hide Net, Acqs, Unlocks, Returneds, Unflags, RetPtr, Tidy, Deref;
    NothingTidy();
    DerefTidy(Fld(c.n, Pred), v);
    match c.ppc
    case PStart => if v.a == NIL { NilDeref(Fld(c.n, Pred), v); RetPtrTidy(c.k, Strip(v), Deref(Fld(c.n, Pred), v)); }
    case PCas(p, ps) => MovedTidy(Fld(c.n, Pred), ps.a, p.a); DroppedTidy(ps.a, p.a);
    case PSkip(p) => DerefTidy(Fld(p.a, Pred), v);
    case PSkipCas(p, pp) => MovedTidy(Fld(c.n, Pred), pp.a, p.a); DroppedTidy(p.a, pp.a);
    case PLast(p) => RetPtrTidy(c.k, Tag(p.a, v.fl), Nothing());
    case _ =>
  }

  lemma NilDeref(f: Fld, v: Ptr)
    requires v.a == NIL
    ensures Deref(f, v) == [Unlock(f)]
  {
    hide Net, Acqs, Unlocks, Returneds, Unflags;
  }

  lemma {:induction false} UnlinkTidy(c: Ctl, v: Ptr, ok: bool, n: int)
    requires c.InUnlink?
    ensures Tidy(AfterUnlink(c.n, c.upc, c.uk, v, ok, n).pend)
  {
    hide Net, Acqs, Unlocks, Returneds, Unflags, RetBool;
    match c.upc
    case UStart => RetBoolTidy(c.uk, false, Nothing());
    case UMark(p) => RetBoolTidy(c.uk, false, Then(Then(Nothing(), Unlock(Fld(p, Succ))), Rel(p, 1)));
    case ULoop(i) => RetBoolTidy(c.uk, true, Then(Then(Nothing(), Rel(i, 1)), Returned(c.n)));
    case UPeek(i) => RetBoolTidy(c.uk, true, Then(Then(Nothing(), Rel(i, 1)), Returned(c.n)));
    case _ =>
  }

  /** The control points that take references the caller or the insert vouches for. */
  predicate TakesOwn(c: Ctl) {
    match c
    case InInsert(_, pc) => pc.IWait? || pc.BWait?
    case InRelease(_, _, pc, k) => pc.RCasP? && k.KReinsert?
    case _ => false
  }

  lemma {:induction false} ReleaseTidy(c: Ctl, v: Ptr, ok: bool, n: int)
    requires c.InRelease? && !TakesOwn(c)
    ensures Tidy(AfterRelease(c.n, c.ins, c.rpc, c.rk, v, ok, n).pend)
  {
    hide Net, Acqs, Unlocks, Returneds, Unflags, Tidy, StartInsert;
    NothingTidy();
    match c.rpc
    case RCasS(s, p) => UnlockTidy(Fld(c.n, Succ), s);
    case RCasP(p) => ClearTidy(c.n, p);
    case _ =>
  }

  lemma NothingTidy()
    ensures Tidy(Nothing())
  {
  }

  lemma UnlockTidy(f: Fld, s: nat)
    ensures Tidy(Then(Then(Nothing(), Unlock(f)), Rel(s, 1)))
  {
    hide Net, Acqs, Unlocks, Returneds, Unflags;
  }

  lemma ClearTidy(n: nat, p: nat)
    ensures var q := Then(Then(Then(Nothing(), Unflag(Fld(n, Pred))), Unlock(Fld(n, Pred))), Rel(p, 1));
            Tidy(q) && Tidy(Then(q, Rel(n, 1)))
  {
    hide Net, Acqs, Unlocks, Returneds, Unflags;
  }

  lemma DerefTidy(f: Fld, v: Ptr)
    ensures Tidy(Deref(f, v))
  {
    hide Net, Acqs, Unlocks, Returneds, Unflags;
  }

  lemma MovedTidy(f: Fld, a: nat, b: nat)
    ensures Tidy(Then(Then(Then(Nothing(), Acq(a)), Unlock(f)), Rel(b, 2)))
  {
    hide Net, Acqs, Unlocks, Returneds, Unflags;
  }

  lemma DroppedTidy(a: nat, b: nat)
    ensures Tidy(Then(Then(Nothing(), Rel(a, 1)), Rel(b, 1)))
  {
    hide Net, Acqs, Unlocks, Returneds, Unflags;
  }

  lemma {:induction false} InsertTidy(c: Ctl, v: Ptr, ok: bool)
    requires c.InInsert? && !TakesOwn(c)
    ensures Tidy(AfterInsert(c.i, c.ipc, v, ok).pend)
  {
    hide Net, Acqs, Unlocks, Returneds, Unflags, StartInsert;
    match c.ipc
    case FPred(_, _, _) => DetachTidy(c, v, ok);
    case _ =>
  }

  lemma {:induction false} DetachTidy(c: Ctl, v: Ptr, ok: bool)
    requires c.InInsert? && c.ipc.FPred?
    ensures Tidy(AfterInsert(c.i, c.ipc, v, ok).pend)
  {
    hide Net, Acqs, Unlocks, Returneds, Unflags, StartInsert;
    if ok {}
  }

  lemma {:induction false} TidyAfter(c: Ctl, v: Ptr, ok: bool, n: int)
    requires !TakesOwn(c)
    ensures Tidy(After(c, v, ok, n).pend)
  {
    hide AfterSucc, AfterPred, AfterUnlink, AfterRelease, AfterInsert, TakesOwn;
    match c
    case InSucc(_, _, _) => SuccTidy(c, v, ok);
    case InPred(_, _, _) => PredTidy(c, v, ok);
    case InUnlink(_, _, _) => UnlinkTidy(c, v, ok, n);
    case InRelease(_, _, _, _) => ReleaseTidy(c, v, ok, n);
    case InInsert(_, _) => InsertTidy(c, v, ok);
    case _ =>
  }

  // ----- What a thread holds when a queued operation is due -----

  function Due(th: Thread, i: nat, x: nat): int
    requires i <= |th.pend|
  {
    Refs(th.ctl, x) + Net(th.pend[i..], x)
  }

  predicate Backed(th: Thread, i: nat, x: nat)
    requires i <= |th.pend|
  {
    x == HEAD || x == NIL || Due(th, i, x) >= 1
  }

  /** A control point from which an insert looks up its place. */
  predicate Looking(c: Ctl, n: nat) { (c.InSucc? || c.InPred?) && c.k.KInsert? && c.k.i.n == n }

  /** ll_ref takes a reference the caller vouches for, and a new insert one to the node whose insert lock it has. */
  predicate Vouched(c: Ctl, a: nat) { c.Idle? || Looking(c, a) }

  predicate MicroOk(th: Thread, i: nat)
    requires i < |th.pend|
  {
    match th.pend[i]
    case Unlock(f) => Backed(th, i, f.node)
    case Unflag(f) => Backed(th, i, f.node)
    case Acq(a) => Backed(th, i, a) || (i + 1 < |th.pend| && th.pend[i + 1].Unlock?) || Vouched(th.ctl, a)
    case Rel(_, k) => k >= 1
    case _ => true
  }

  ghost predicate QueueOk(th: Thread) { forall i :: 0 <= i < |th.pend| ==> MicroOk(th, i) }

  lemma {:induction false} NetSplit(q: seq<Micro>, i: nat, x: nat)
    requires i <= |q|
    ensures Net(q, x) == Net(q[..i], x) + Net(q[i..], x)
  {
    hide NetOf;
    if i == 0 {
      assert q[..0] == [] && q[0..] == q;
    } else {
      NetSplit(q[1..], i - 1, x);
      assert q[..i][1..] == q[1..][..i - 1] && q[1..][i - 1..] == q[i..];
    }
  }

  lemma {:induction false} NetSign(q: seq<Micro>, x: nat)
    ensures (forall i :: 0 <= i < |q| ==> !q[i].Rel?) ==> Net(q, x) <= 0
    ensures (forall i :: 0 <= i < |q| ==> !q[i].Acq?) ==> Net(q, x) >= 0
    ensures (forall i :: 0 <= i < |q| ==> !q[i].Acq?) && q != [] && q[|q| - 1] == Rel(x, 1) ==> Net(q, x) >= 1
  {
    if q == [] {
    } else {
      NetSign(q[1..], x);
      assert forall i :: 0 <= i < |q| - 1 ==> q[1..][i] == q[i + 1];
    }
  }

  /** A link whose lock a control point owns, or takes with its operation, belongs to a node it holds. */
  lemma {:induction false} LockedIsHeld(c: Ctl, ok: bool, f: Fld)
    requires Guarded(c) && Owns(c, f) + MovedLocks(c, ok, f) >= 1
    ensures f.node == HEAD || f.node == NIL || Refs(c, f.node) + MovedRefs(c, ok, f.node) >= 1
  {
  }

  lemma {:induction false} UnlockCounted(q: seq<Micro>, i: nat, f: Fld)
    requires i < |q| && q[i] == Unlock(f)
    ensures Unlocks(q, f) >= 1
  {
    if i == 0 {
    } else {
      UnlockCounted(q[1..], i - 1, f);
    }
  }

  /** The queue of a tidy step is in order. */
  lemma {:induction false} TidyQueueOk(c: Ctl, v: Ptr, ok: bool, n: int, i: nat)
    requires Guarded(c) && !TakesOwn(c) && i < |After(c, v, ok, n).pend|
    ensures MicroOk(After(c, v, ok, n), i)
  {
    hide After, Refs, Owns, Guarded, MovedRefs, MovedLocks, TakesOwn, Net, Unlocks, Acqs;
    var th := After(c, v, ok, n);
    var q := th.pend;
    TidyAfter(c, v, ok, n);
    match q[i]
    case Unlock(f) =>
      if f.node != NIL && f.node != HEAD {
        UnlockCounted(q, i, f);
        AfterBooks(c, v, ok, n, f.node, f);
        LockedIsHeld(c, ok, f);
        NetSplit(q, i, f.node);
        NetSign(q[..i], f.node);
      }
    case Unflag(f) => UnflagBacked(c, v, ok, n, i);
    case _ =>
  }

  lemma {:induction false} UnflagBacked(c: Ctl, v: Ptr, ok: bool, n: int, i: nat)
    requires Guarded(c) && !TakesOwn(c) && i < |After(c, v, ok, n).pend| && After(c, v, ok, n).pend[i].Unflag?
    ensures Backed(After(c, v, ok, n), i, After(c, v, ok, n).pend[i].f.node)
  {
    hide After, Owns, Guarded, MovedLocks, TakesOwn, Net, Unlocks, Acqs;
    var th := After(c, v, ok, n);
    var q, x := th.pend, th.pend[i].f.node;
    TidyAfter(c, v, ok, n);
    if q[i].f.side == Pred {
      if x != NIL {
        UnflagsOwn(c, v, ok, n);
        AfterBooks(c, v, ok, n, x, Fld(NIL, Succ));
        assert q[0..] == q;
      }
    } else {
      NetSign(q[i..], x);
    }
  }

  /** Only unlink_release clears a deletion mark, that of its own node. */
  lemma {:induction false} UnflagsOwn(c: Ctl, v: Ptr, ok: bool, n: int)
    requires var q := After(c, v, ok, n).pend; q != [] && q[0].Unflag? && q[0].f.side == Pred
    ensures c.InRelease? && After(c, v, ok, n).pend[0].f.node == c.n
  {
    hide After;
    var q := After(c, v, ok, n).pend;
    assert Unflags(q, q[0].f) >= 1;
    PastAfter(c, v, ok, n, q[0].f.node);
  }

  /** The steps that take references of their own: an insert that got its lock, and one that found its place. */
  lemma {:induction false} StartQueueOk(i: Ins, q: seq<Micro>, j: nat)
    requires CallerOk(i) && j < |StartInsert(i, q).pend| && j >= |q|
    ensures MicroOk(StartInsert(i, q), j)
  {
    hide Acqs, Unlocks, Returneds, Unflags;
    var th := StartInsert(i, q);
    if j == |q| {
      assert th.pend[j] == Acq(i.n);
    } else {
      assert th.pend[j..] == [Acq(i.rel)];
      assert Net([Acq(i.rel)], i.rel) == -1;
    }
  }

  lemma {:induction false} LookedQueueOk(i: Ins, a: nat, y: nat, v: Ptr, ok: bool, j: nat)
    requires var c := InInsert(i, BWait(a, y)); Guarded(c) && j < |AfterInsert(i, c.ipc, v, ok).pend|
    ensures MicroOk(AfterInsert(i, BWait(a, y), v, ok), j)
  {
    hide Net, Acqs, Unlocks, Returneds, Unflags, RefsI;
    var th := AfterInsert(i, BWait(a, y), v, ok);
    var p, s := InsertPred(i, a, y), InsertSucc(i, a, y);
    assert th.pend == [Acq(p), Acq(s)] && th.pend[0..] == th.pend && th.pend[1..] == [Acq(s)] == Then(Nothing(), Acq(s));
    assert th.ctl == InInsert(i, BSucc(a, y)) && AnchorOk(i, a);
    if j == 0 {
      assert Due(th, 0, p) == RefsI(i, p) + RefsA(i, a, p) + One(y, p);
    } else {
      assert Due(th, 1, s) == RefsI(i, s) + RefsA(i, a, s) + One(y, s) + One(p, s);
    }
  }

  lemma {:induction false} ReinsertQueueOk(n: nat, ins: bool, p: nat, i: Ins, v: Ptr, ok: bool, cnt: int, j: nat)
    requires var c := InRelease(n, ins, RCasP(p), KReinsert(i)); Guarded(c) && j < |After(c, v, ok, cnt).pend|
    ensures MicroOk(After(InRelease(n, ins, RCasP(p), KReinsert(i)), v, ok, cnt), j)
  {
    hide Net, Acqs, Unlocks, Returneds, Unflags, Refs, StartInsert;
    if ok {
      var q := Then(Then(Then(Nothing(), Unflag(Fld(n, Pred))), Unlock(Fld(n, Pred))), Rel(p, 1));
      var i' := i.(bag := i.bag + multiset{n});
      if j >= |q| {
        StartQueueOk(i', q, j);
      } else {
        ReinsertHolds(i', q, n, j);
      }
    }
  }

  /** ... until the caller's reference to n is counted twice, it is there once. */
  lemma {:induction false} ReinsertHolds(i: Ins, q: seq<Micro>, n: nat, j: nat)
    requires i.n == n && i.bag[n] >= 1 && j < |q| && forall l :: 0 <= l < |q| ==> !q[l].Acq?
    ensures j < |StartInsert(i, q).pend| && StartInsert(i, q).pend[j] == q[j] && Due(StartInsert(i, q), j, n) >= 1
  {
    hide Acqs, Unlocks, Returneds, Unflags;
    var th := StartInsert(i, q);
    NetSign(q[j..], n);
    if i.own {
      assert th.pend[j..] == q[j..] + [Acq(n)] + [Acq(i.rel)];
      QueueLedger(q[j..], Acq(n), n, Fld(NIL, Succ));
      QueueLedger(q[j..] + [Acq(n)], Acq(i.rel), n, Fld(NIL, Succ));
    } else {
      assert th.pend[j..] == q[j..] + [Acq(n)];
      QueueLedger(q[j..], Acq(n), n, Fld(NIL, Succ));
    }
  }

  lemma {:induction false} AfterQueueOk(c: Ctl, v: Ptr, ok: bool, n: int)
    requires Guarded(c)
    ensures QueueOk(After(c, v, ok, n))
  {
    hide MicroOk, Guarded;
    var th := After(c, v, ok, n);
    forall i | 0 <= i < |th.pend| ensures MicroOk(th, i) {
      hide After, AfterInsert;
      if !TakesOwn(c) {
        TidyQueueOk(c, v, ok, n, i);
      } else {
        OwnQueueOk(c, v, ok, n, i);
      }
    }
  }

  lemma {:induction false} OwnQueueOk(c: Ctl, v: Ptr, ok: bool, n: int, j: nat)
    requires Guarded(c) && TakesOwn(c) && j < |After(c, v, ok, n).pend|
    ensures MicroOk(After(c, v, ok, n), j)
  {
    hide MicroOk, StartInsert, Net, Refs;
    match c
    case InInsert(i, IWait) => StartQueueOk(i, Nothing(), j);
    case InInsert(i, BWait(a, y)) => LookedQueueOk(i, a, y, v, ok, j);
    case InRelease(m, ins, RCasP(p), KReinsert(i)) => ReinsertQueueOk(m, ins, p, i, v, ok, n, j);
  }

  lemma {:induction false} BeginQueueOk(api: Api, bag: multiset<nat>)
    ensures QueueOk(Begin(api, bag))
  {
    hide Net, Acqs, Unlocks, Returneds, Unflags, Refs;
  }

  lemma {:induction false} PoppedQueueOk(th: Thread)
    requires QueueOk(th) && th.pend != []
    ensures QueueOk(Popped(th))
  {
    hide Net, Refs;
    forall i | 0 <= i < |th.pend| - 1 ensures MicroOk(Popped(th), i) {
      assert MicroOk(th, i + 1) && th.pend[1..][i..] == th.pend[i + 1..];
    }
  }

  // ----- A reference about to be taken under a lock is to the node the locked link leads to -----

  predicate LinkKept(mem: seq<Elem>, q: seq<Micro>, i: nat)
    requires i + 1 < |q|
  {
    q[i].Acq? && q[i + 1].Unlock? ==> ValidNode(mem, q[i + 1].f.node) && Get(mem, q[i + 1].f).a == q[i].n
  }

  ghost predicate LinksKept(mem: seq<Elem>, q: seq<Micro>) {
    forall i {:trigger LinkKept(mem, q, i)} :: 0 <= i < |q| - 1 ==> LinkKept(mem, q, i)
  }

  lemma {:induction false} SuccLink(mem: seq<Elem>, c: Ctl)
    requires c.InSucc? && ValidNode(mem, Target(NextOp(c)))
    ensures var op := NextOp(c);
            var q := AfterSucc(c.n, c.spc, c.k, Seen(mem, op), Ok(mem, op)).pend;
            |q| > 1 ==> LinkKept(Apply(mem, op), q, 0)
  {
    hide Net, Acqs, Unlocks, Returneds, Unflags, RetPtr;
    var v := Seen(mem, NextOp(c));
    match c.spc
    case SStart => if v.a == NIL { RetPtrFirst(c.k, Strip(v), Deref(Fld(c.n, Succ), v)); }
    case STest(s) => RetPtrFirst(c.k, s, Nothing());
    case _ =>
  }

  lemma {:induction false} PredLink(mem: seq<Elem>, c: Ctl)
    requires c.InPred? && ValidNode(mem, Target(NextOp(c)))
    ensures var op := NextOp(c);
            var q := AfterPred(c.n, c.ppc, c.k, Seen(mem, op), Ok(mem, op)).pend;
            |q| > 1 ==> LinkKept(Apply(mem, op), q, 0)
  {
    hide Net, Acqs, Unlocks, Returneds, Unflags, RetPtr;
    var v := Seen(mem, NextOp(c));
    match c.ppc
    case PStart => if v.a == NIL { RetPtrFirst(c.k, Strip(v), Deref(Fld(c.n, Pred), v)); }
    case PLast(p) => RetPtrFirst(c.k, Tag(p.a, v.fl), Nothing());
    case _ =>
  }

  /** Returning a pointer takes no reference. */
  lemma {:induction false} RetPtrFirst(k: PtrK, v: Tag, q: seq<Micro>)
    requires q == [] || (|q| == 1 && q[0].Unlock?)
    ensures RetPtr(k, v, q).pend != [] ==> !RetPtr(k, v, q).pend[0].Acq?
  {
    hide RetPtr;
    RetPtrTidy(k, v, q);
    RetPtrLonger(k, v, q);
  }

  lemma {:induction false} RetPtrLonger(k: PtrK, v: Tag, q: seq<Micro>)
    ensures q <= RetPtr(k, v, q).pend
    ensures forall i :: |q| <= i < |RetPtr(k, v, q).pend| ==> !RetPtr(k, v, q).pend[i].Acq?
  {
    hide Net, Acqs, Unlocks, Returneds, Unflags;
  }

  lemma {:induction false} UnlinkFirst(c: Ctl, v: Ptr, ok: bool, n: int)
    requires c.InUnlink?
    ensures var q := AfterUnlink(c.n, c.upc, c.uk, v, ok, n).pend; q != [] ==> !q[0].Acq?
  {
    hide Net, Acqs, Unlocks, Returneds, Unflags, RetBool;
    match c.upc
    case UStart => RetBoolTidy(c.uk, false, Nothing());
    case UMark(p) => RetBoolTidy(c.uk, false, Then(Then(Nothing(), Unlock(Fld(p, Succ))), Rel(p, 1)));
    case ULoop(i) => RetBoolTidy(c.uk, true, Then(Then(Nothing(), Rel(i, 1)), Returned(c.n)));
    case UPeek(i) => RetBoolTidy(c.uk, true, Then(Then(Nothing(), Rel(i, 1)), Returned(c.n)));
    case _ =>
  }

  lemma {:induction false} ReleaseFirst(c: Ctl, v: Ptr, ok: bool, n: int)
    requires c.InRelease?
    ensures var q := AfterRelease(c.n, c.ins, c.rpc, c.rk, v, ok, n).pend; q != [] ==> !q[0].Acq?
  {
    hide Net, Acqs, Unlocks, Returneds, Unflags;
  }

  lemma {:induction false} InsertLink(mem: seq<Elem>, c: Ctl)
    requires c.InInsert? && ValidNode(mem, Target(NextOp(c))) && KnowsLink(mem, c)
    ensures var op := NextOp(c);
            var q := AfterInsert(c.i, c.ipc, Seen(mem, op), Ok(mem, op)).pend;
            |q| > 1 ==> LinkKept(Apply(mem, op), q, 0)
  {
    hide Net, Acqs, Unlocks, Returneds, Unflags;
  }

  lemma {:induction false} LinkAfter(mem: seq<Elem>, c: Ctl, n: int)
    requires ValidNode(mem, Target(NextOp(c))) && KnowsLink(mem, c)
    ensures var op := NextOp(c);
            var q := After(c, Seen(mem, op), Ok(mem, op), n).pend;
            |q| > 1 ==> LinkKept(Apply(mem, op), q, 0)
  {
    hide Apply, Seen, Ok, NextOp, KnowsLink, AfterSucc, AfterPred, AfterUnlink, AfterRelease, AfterInsert;
    var op := NextOp(c);
    match c
    case InSucc(_, _, _) => SuccLink(mem, c);
    case InPred(_, _, _) => PredLink(mem, c);
    case InUnlink(_, _, _) => UnlinkFirst(c, Seen(mem, op), Ok(mem, op), n);
    case InRelease(_, _, _, _) => ReleaseFirst(c, Seen(mem, op), Ok(mem, op), n);
    case InInsert(_, _) => InsertLink(mem, c);
    case _ =>
  }

  /** Only the first operation of a queue takes a reference under a lock. */
  lemma {:induction false} LinksAfter(mem: seq<Elem>, c: Ctl, n: int)
    requires ValidNode(mem, Target(NextOp(c))) && KnowsLink(mem, c)
    ensures var op := NextOp(c); LinksKept(Apply(mem, op), After(c, Seen(mem, op), Ok(mem, op), n).pend)
  {
    hide After, NextOp, Apply, Seen, Ok, KnowsLink, TakesOwn;
    var op := NextOp(c);
    LinkAfter(mem, c, n);
    if !TakesOwn(c) {
      TidyAfter(c, Seen(mem, op), Ok(mem, op), n);
    } else {
      OwnLocksFirst(c, Seen(mem, op), Ok(mem, op), n);
    }
  }

  lemma {:induction false} OwnLocksFirst(c: Ctl, v: Ptr, ok: bool, n: int)
    requires TakesOwn(c)
    ensures var q := After(c, v, ok, n).pend; forall i, j :: 0 <= j < i < |q| && q[i].Unlock? ==> !q[j].Acq?
  {
    hide Net, Acqs, Unlocks, Returneds, Unflags;
  }

  // ----- The invariant of queues -----

  ghost predicate QueuesOk(s: State) {
    forall t :: 0 <= t < |s.threads| ==> QueueOk(s.threads[t]) && LinksKept(s.mem, s.threads[t].pend)
  }

  /** An operation of another thread leaves a link locked by this one leading where it did. */
  lemma {:induction false} OthersKeepLink(s: State, t: nat, u: nat, i: nat)
    requires AtOp(s, t) && u < |s.threads| && u != t && i + 1 < |s.threads[u].pend|
    requires LinkKept(s.mem, s.threads[u].pend, i)
    ensures LinkKept(Step(s, Run(t)).mem, s.threads[u].pend, i)
  {
    hide After, NextOp, Refs, Net, Acqs, Guarded, LinkRefs, Unlocks;
    var q, c := s.threads[u].pend, s.threads[t].ctl;
    var op := NextOp(c);
    if q[i].Acq? && q[i + 1].Unlock? {
      UnlockCounted(q, i + 1, q[i + 1].f);
      LocksSum(s.threads, t, u, q[i + 1].f);
      assert LockOk(s, q[i + 1].f);
      CasRespectsLock(c);
    }
  }

  lemma {:induction false} OpQueues(s: State, t: nat)
    requires AtOp(s, t) && QueuesOk(s)
    ensures QueuesOk(Step(s, Run(t)))
  {
    hide After, NextOp, Refs, Net, Acqs, Guarded, LinkRefs, KnowsLink, QueueOk, LinkKept;
    var s', c := Step(s, Run(t)), s.threads[t].ctl;
    var op := NextOp(c);
    assert ThreadOk(s.mem, s.threads[t]);
    AfterQueueOk(c, Seen(s.mem, op), Ok(s.mem, op), OpCount(s, t));
    LinksAfter(s.mem, c, OpCount(s, t));
    forall u | 0 <= u < |s'.threads| ensures QueueOk(s'.threads[u]) && LinksKept(s'.mem, s'.threads[u].pend) {
      if u != t {
        assert LinksKept(s.mem, s.threads[u].pend);
        forall i | 0 <= i < |s.threads[u].pend| - 1 ensures LinkKept(s'.mem, s.threads[u].pend, i) {
          OthersKeepLink(s, t, u, i);
        }
      }
    }
  }

  lemma {:induction false} MicroKeepsLinks(mem: seq<Elem>, m: Micro, q: seq<Micro>)
    requires MicroEnabled(mem, m) && LinksKept(mem, q)
    ensures LinksKept(ApplyMicro(mem, m), q)
  {
    forall i | 0 <= i < |q| - 1 ensures LinkKept(ApplyMicro(mem, m), q, i) {
      assert LinkKept(mem, q, i);
    }
  }

  lemma {:induction false} MicroQueues(s: State, t: nat)
    requires AtMicro(s, t) && QueuesOk(s)
    ensures QueuesOk(Step(s, Run(t)))
  {
    hide Refs, Net, Acqs, Guarded, LinkRefs, KnowsLink, QueueOk, LinkKept, ApplyMicro, MicroEnabled, Inv;
    var s', m := Step(s, Run(t)), s.threads[t].pend[0];
    forall u | 0 <= u < |s'.threads| ensures QueueOk(s'.threads[u]) && LinksKept(s'.mem, s'.threads[u].pend) {
      assert QueueOk(s.threads[u]) && LinksKept(s.mem, s.threads[u].pend);
      MicroKeepsLinks(s.mem, m, s.threads[u].pend);
      if u == t {
        PoppedQueueOk(s.threads[t]);
        LinksPopped(s'.mem, s.threads[t].pend);
      }
    }
  }

  lemma {:induction false} LinksPopped(mem: seq<Elem>, q: seq<Micro>)
    requires q != [] && LinksKept(mem, q)
    ensures LinksKept(mem, q[1..])
  {
    forall i | 0 <= i < |q| - 2 ensures LinkKept(mem, q[1..], i) {
      assert LinkKept(mem, q, i + 1);
    }
  }

  lemma {:induction false} StepQueues(s: State, act: Act)
    requires Inv(s) && QueuesOk(s)
    ensures QueuesOk(Step(s, act))
  {
    hide Inv, QueueOk, LinksKept;
    match act
    case Run(t) =>
      if t < |s.threads| {
        if s.threads[t].pend != [] {
          if MicroEnabled(s.mem, s.threads[t].pend[0]) { MicroQueues(s, t); }
        } else if ValidNode(s.mem, Target(NextOp(s.threads[t].ctl))) {
          OpQueues(s, t);
        }
      }
    case Call(t, api) => CallQueues(s, t, api);
    case Give(t, u, x) => GiveQueues(s, t, u, x);
  }

  lemma {:induction false} CallQueues(s: State, t: nat, api: Api)
    requires QueuesOk(s)
    ensures QueuesOk(Step(s, Call(t, api)))
  {
    hide QueueOk, Begin;
    if t < |s.threads| && s.threads[t].pend == [] && s.threads[t].ctl.Idle? {
      BeginQueueOk(api, s.threads[t].ctl.bag);
      BeginLinks(s.mem, api, s.threads[t].ctl.bag);
    }
  }

  lemma {:induction false} BeginLinks(mem: seq<Elem>, api: Api, bag: multiset<nat>)
    ensures |Begin(api, bag).pend| <= 1
  {
  }

  lemma {:induction false} GiveQueues(s: State, t: nat, u: nat, x: nat)
    requires QueuesOk(s)
    ensures QueuesOk(Step(s, Give(t, u, x)))
  {
  }

  lemma {:induction false} EveryRunQueues(nodes: nat, threads: nat, run: seq<Act>)
    ensures QueuesOk(Exec(Init(nodes, threads), run))
  {
    hide Inv, Step, QueuesOk;
    if run == [] {
      InitQueues(nodes, threads);
    } else {
      EveryRunQueues(nodes, threads, run[..|run| - 1]);
      EveryRun(nodes, threads, run[..|run| - 1]);
      StepQueues(Exec(Init(nodes, threads), run[..|run| - 1]), run[|run| - 1]);
    }
  }

  lemma {:induction false} InitQueues(nodes: nat, threads: nat)
    ensures QueuesOk(Init(nodes, threads))
  {
  }

  lemma {:induction false} ReachableQueues(s: State)
    requires Reachable(s)
    ensures QueuesOk(s)
  {
    hide QueuesOk, Exec, Init;
    var nodes, threads, run :| s == Exec(Init(nodes, threads), run);
    EveryRunQueues(nodes, threads, run);
  }

  // ----- What a thread touches -----

  /** The node whose links or count the next operation of a thread reads or writes. */
  function Touched(th: Thread): nat {
    if th.pend == [] then Target(NextOp(th.ctl)) else
    match th.pend[0]
    case Acq(n) => n
    case Rel(n, _) => n
    case Unlock(f) => f.node
    case Unflag(f) => f.node
    case _ => NIL
  }

  /**
   The operations on a node the thread has no hold on yet: taking its insert lock, waiting for its release to end,
   and taking the first reference, in ll_ref or with the insert lock in hand.
   */
  predicate Approaching(th: Thread, x: nat) {
    if th.pend == [] then th.ctl.InInsert? && (th.ctl.ipc.ILock? || th.ctl.ipc.IWait?) && th.ctl.i.n == x
    else th.pend[0] == Acq(x) && Vouched(th.ctl, x)
  }

  /** The thread has locked a link that leads to x. */
  ghost predicate HasLink(s: State, th: Thread, x: nat) {
    exists f: Fld :: ValidNode(s.mem, f.node) && Locks(th, f) == 1 && Get(s.mem, f).a == x
  }

  /**
   Every node whose links or count a thread reads or writes is the head, or has a positive count: the thread holds a
   reference to it or, about to take one, has locked a link to it.  The exceptions are the first approaches.
   */
  lemma {:induction false} TouchedNodeIsReferenced(s: State, t: nat)
    requires Reachable(s) && t < |s.threads|
    requires var x := Touched(s.threads[t]); ValidNode(s.mem, x) && x != HEAD && !Approaching(s.threads[t], x)
    ensures var x := Touched(s.threads[t]); s.mem[x].cnt >= 1 && (Held(s.threads[t], x) >= 1 || HasLink(s, s.threads[t], x))
  {
    hide AllHeld, Acqs, KnowsLink, NextOp, Refs, Guarded, LinkRefs, QueuesOk;
    var th := s.threads[t];
    var x := Touched(th);
    ReachableInv(s);
    assert forall u :: 0 <= u < |s.threads| ==> ThreadOk(s.mem, s.threads[u]);
    assert NodeOk(s, x);
    HeldNatural(s.threads, t, x);
    if th.pend == [] {
      TargetReferenced(th.ctl);
    } else {
      PendingHeld(s, t);
    }
  }

  lemma {:induction false} PendingHeld(s: State, t: nat)
    requires Reachable(s) && t < |s.threads| && s.threads[t].pend != []
    requires var x := Touched(s.threads[t]); ValidNode(s.mem, x) && x != HEAD && !Approaching(s.threads[t], x)
    ensures var x := Touched(s.threads[t]); s.mem[x].cnt >= 1 && (Held(s.threads[t], x) >= 1 || HasLink(s, s.threads[t], x))
  {
    hide AllHeld, Acqs, KnowsLink, Refs, Guarded, LinkRefs, Net, Unlocks;
    var th := s.threads[t];
    var x, q := Touched(th), th.pend;
    ReachableInv(s);
    ReachableQueues(s);
    assert forall u :: 0 <= u < |s.threads| ==> ThreadOk(s.mem, s.threads[u]);
    assert QueueOk(th) && LinksKept(s.mem, q);
    assert MicroOk(th, 0) && q[0..] == q;
    assert NodeOk(s, x);
    HeldNatural(s.threads, t, x);
    NetBelow(q, x);
    if q[0].Acq? && Held(th, x) < 1 {
      assert LinkKept(s.mem, q, 0);
      var f := q[1].f;
      UnlockCounted(q, 1, f);
      LockHasOneOwner(s, f);
      LinkCounted(s.mem, f.node, x);
    }
  }

  // ----- The release of a node -----

  /** No link leads to n and no thread but t holds a reference to it. */
  ghost predicate Alone(s: State, t: nat, n: nat)
    requires t < |s.threads|
  {
    && (forall m :: 0 <= m < |s.mem| ==> s.mem[m].succ.a != n && s.mem[m].pred.a != n)
    && (forall u :: 0 <= u < |s.threads| && u != t ==> Held(s.threads[u], n) == 0)
  }

  lemma {:induction false} NoLinkTo(mem: seq<Elem>, x: nat)
    requires forall m :: 0 <= m < |mem| ==> mem[m].succ.a != x && mem[m].pred.a != x
    ensures LinkRefs(mem, x) == 0
  {
    if mem == [] {
    } else {
      assert forall m :: 0 <= m < |mem| - 1 ==> mem[1..][m] == mem[m + 1];
      NoLinkTo(mem[1..], x);
    }
  }

  lemma {:induction false} OneHolder(ts: seq<Thread>, t: nat, x: nat)
    requires t < |ts| && forall u :: 0 <= u < |ts| && u != t ==> Held(ts[u], x) == 0
    ensures AllHeld(ts, x) == Held(ts[t], x)
  {
    hide Held;
    var rest := ts[1..];
    assert forall u :: 0 <= u < |rest| ==> rest[u] == ts[u + 1];
    if t > 0 {
      OneHolder(rest, t - 1, x);
    } else if rest != [] {
      OneHolder(rest, 0, x);
    }
  }

  /** A thread can tell from the count: it is alone with n if and only if the count is what it holds itself. */
  lemma {:induction false} AloneIff(s: State, t: nat, n: nat)
    requires Reachable(s) && t < |s.threads| && ValidNode(s.mem, n)
    ensures Alone(s, t, n) <==> s.mem[n].cnt == Held(s.threads[t], n)
  {
    hide AllHeld, Acqs, KnowsLink, Refs, Net, Held;
    ReachableInv(s);
    assert NodeOk(s, n);
    assert forall u :: 0 <= u < |s.threads| ==> ThreadOk(s.mem, s.threads[u]);
    if Alone(s, t, n) {
      hide LinkRefs;
      NoLinkTo(s.mem, n);
      OneHolder(s.threads, t, n);
    }
    forall u | 0 <= u < |s.threads| ensures Held(s.threads[u], n) >= 0 { HeldNatural(s.threads, u, n); }
    HeldSum(s.threads, t, n);
    forall m | 0 <= m < |s.mem| ensures One(s.mem[m].succ.a, n) + One(s.mem[m].pred.a, n) <= LinkRefs(s.mem, n) {
      LinkCounted(s.mem, m, n);
    }
  }

  predicate ReleasingNode(th: Thread, n: nat) { th.ctl.InRelease? && th.ctl.n == n }

  /** The thread is inside unlink_release(n), or still has queued writes to make, such as the last ones of that release. */
  predicate InHand(th: Thread, n: nat) { ReleasingNode(th, n) || th.pend != [] }

  /** Another thread takes a reference to n. */
  predicate TakenByOther(s: State, act: Act, t: nat, n: nat) {
    act.Run? && act.t < |s.threads| && act.t != t && s.threads[act.t].pend != [] && s.threads[act.t].pend[0] == Acq(n)
  }

  /** unlink_release leaves its wait alone with the node. */
  lemma {:induction false} WaitLeavesAlone(s: State, t: nat)
    requires Reachable(s) && t < |s.threads| && s.threads[t].pend == []
    requires s.threads[t].ctl.InRelease? && s.threads[t].ctl.rpc == RWait
    requires ValidNode(s.mem, s.threads[t].ctl.n) && s.mem[s.threads[t].ctl.n].cnt <= 1
    ensures var n, s' := s.threads[t].ctl.n, Step(s, Run(t));
            ReleasingNode(s'.threads[t], n) && s'.threads[t].ctl.rpc == RLoadS && Alone(s', t, n)
  {
    LastReference(s, t);
  }

  /** ... and stays alone with it, step by step to the last queued write, exactly until another thread takes a reference. */
  lemma {:induction false} AloneUntilTaken(s: State, act: Act, t: nat, n: nat)
    requires Reachable(s) && t < |s.threads| && ValidNode(s.mem, n) && InHand(s.threads[t], n) && Alone(s, t, n)
    ensures var s' := Step(s, act);
            t < |s'.threads| && ValidNode(s'.mem, n) && (Alone(s', t, n) <==> !TakenByOther(s, act, t, n))
  {
    hide Alone, Reachable, Held, Step;
    var s' := Step(s, act);
    AloneIff(s, t, n);
    ReachableStep(s, act);
    CountAgainstHeld(s, act, t, n);
    AloneIff(s', t, n);
  }

  lemma {:induction false} CountAgainstHeld(s: State, act: Act, t: nat, n: nat)
    requires Reachable(s) && t < |s.threads| && ValidNode(s.mem, n) && InHand(s.threads[t], n) && Alone(s, t, n)
    ensures var s' := Step(s, act);
            && ValidNode(s'.mem, n) && t < |s'.threads|
            && s'.mem[n].cnt - Held(s'.threads[t], n) == s.mem[n].cnt - Held(s.threads[t], n) + Bit(TakenByOther(s, act, t, n))
  {
    hide Reachable, Begin, Refs, Net;
    match act
    case Run(u) =>
      if u < |s.threads| {
        if s.threads[u].pend != [] {
          if MicroEnabled(s.mem, s.threads[u].pend[0]) { MicroAgainstHeld(s, u, t, n); }
        } else if ValidNode(s.mem, Target(NextOp(s.threads[u].ctl))) {
          OpAgainstHeld(s, u, t, n);
        }
      }
    case Call(_, _) =>
    case Give(_, _, _) =>
  }

  lemma {:induction false} MicroAgainstHeld(s: State, u: nat, t: nat, n: nat)
    requires Reachable(s) && t < |s.threads| && u < |s.threads| && ValidNode(s.mem, n) && Alone(s, t, n)
    requires s.threads[u].pend != [] && MicroEnabled(s.mem, s.threads[u].pend[0])
    ensures var s' := Step(s, Run(u));
            && ValidNode(s'.mem, n) && t < |s'.threads|
            && s'.mem[n].cnt - Held(s'.threads[t], n) == s.mem[n].cnt - Held(s.threads[t], n) + Bit(TakenByOther(s, Run(u), t, n))
  {
    hide Reachable, Refs, Acqs, Guarded, KnowsLink, LinkRefs, AllHeld;
    var q := s.threads[u].pend;
    if u != t && q[0].Rel? && q[0].n == n {
      ReachableInv(s);
      ReachableQueues(s);
      assert ThreadOk(s.mem, s.threads[u]) && QueueOk(s.threads[u]);
      assert MicroOk(s.threads[u], 0);
      NetBelow(q, n);
    }
  }

  lemma {:induction false} OpAgainstHeld(s: State, u: nat, t: nat, n: nat)
    requires Reachable(s) && t < |s.threads| && u < |s.threads| && ValidNode(s.mem, n) && Alone(s, t, n)
    requires s.threads[u].pend == [] && ValidNode(s.mem, Target(NextOp(s.threads[u].ctl)))
    requires u == t ==> ReleasingNode(s.threads[t], n)
    ensures var s' := Step(s, Run(u));
            && ValidNode(s'.mem, n) && t < |s'.threads|
            && s'.mem[n].cnt - Held(s'.threads[t], n) == s.mem[n].cnt - Held(s.threads[t], n)
  {
    hide Reachable, After, Refs, Acqs, Guarded, KnowsLink, LinkRefs, AllHeld, Locks;
    var c := s.threads[u].ctl;
    var op := NextOp(c);
    if u == t {
      ReachableInv(s);
      assert ThreadOk(s.mem, s.threads[t]);
      AfterBooks(c, Seen(s.mem, op), Ok(s.mem, op), OpCount(s, t), n, Fld(NIL, Succ));
    }
  }

  /** From the wait of a release to its last write, as long as no other thread takes a reference. */
  ghost predicate Undisturbed(s: State, run: seq<Act>, t: nat, n: nat) {
    run == [] ||
    (var front := run[..|run| - 1];
     var now := Exec(s, front);
     Undisturbed(s, front, t, n) && t < |now.threads| && InHand(now.threads[t], n) && !TakenByOther(now, run[|run| - 1], t, n))
  }

  lemma {:induction false} AloneThroughout(s: State, run: seq<Act>, t: nat, n: nat)
    requires Reachable(s) && t < |s.threads| && ValidNode(s.mem, n) && Alone(s, t, n) && Undisturbed(s, run, t, n)
    ensures var s' := Exec(s, run);
            Reachable(s') && t < |s'.threads| && ValidNode(s'.mem, n) && Alone(s', t, n)
  {
    hide Reachable, Step, Alone, TakenByOther, InHand;
    if run == [] {
    } else {
      var front := run[..|run| - 1];
      AloneThroughout(s, front, t, n);
      AloneUntilTaken(Exec(s, front), run[|run| - 1], t, n);
      ReachableStep(Exec(s, front), run[|run| - 1]);
    }
  }

  /**
   While a thread is alone with a node, no other thread touches the node, except to approach it: to try its
   insert lock, to wait for the release to end, or to take a first reference.
   */
  lemma {:induction false} ReleaseIsExclusive(s: State, t: nat, u: nat, n: nat)
    requires Reachable(s) && t < |s.threads| && u < |s.threads| && u != t && ValidNode(s.mem, n) && n != HEAD
    requires Alone(s, t, n)
    ensures Touched(s.threads[u]) == n ==> Approaching(s.threads[u], n)
  {
    hide Reachable, Touched, Approaching, Held, Locks;
    if Touched(s.threads[u]) == n && !Approaching(s.threads[u], n) {
      TouchedNodeIsReferenced(s, u);
    }
  }
}
