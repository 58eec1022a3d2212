/**
 What one thread of the list machine accounts for at each control point: the references it
 holds, the DEREF locks it owns, and the unlinks it has marked but not yet reported.  Every
 step of the program keeps these books; nothing here depends on other threads.
 */
module LlLedger {
  import opened LlTypes
  import opened LlMachine

  // ----- References -----

  function RefsB(k: BoolK, x: nat): nat { One(k.n, x) + k.bag[x] }

  function RefsR(k: ReleaseK, x: nat): nat { if k.KReinsert? then k.i.bag[x] else k.bag[x] }

  /** An insert under way holds n and the caller's references. */
  function RefsI(i: Ins, x: nat): nat { One(i.n, x) + i.bag[x] }

  /** ... and its anchor, when that is a node rather than the head, */
  function RefsA(i: Ins, a: nat, x: nat): nat { if i.own then One(a, x) else 0 }

  function RefsP(k: PtrK, x: nat): nat {
    match k
    case KPred(_, p, k') => One(p.a, x) + RefsP(k', x)
    case KUnlink(_, at, k') =>
      RefsB(k', x) + (match at
                      case APred => 0
                      case ASuccP(p) => One(p, x)
                      case ASucc => 0
                      case APredI(i) => One(i, x)
                      case ASuccI(i) => One(i, x))
    case KInsert(i, at) =>
      RefsI(i, x) + (match at
                     case ALook(a) => RefsA(i, a, x)
                     case AFix(a) => One(a, x)
                     case ALinked(a, y) => RefsA(i, a, x) + One(y, x))
    case KApi(bag) => bag[x]
    case KPop(_, _, bag) => bag[x]
    case KPopNext(_, _, m, bag) => One(m, x) + bag[x]
  }

  function RefsS(pc: SuccPc, x: nat): nat {
    match pc
    case SStart => 0
    case STest(s) => One(s.a, x)
    case SNext(s) => One(s.a, x)
    case SCas(s, ss) => One(s.a, x) + One(ss.a, x)
    case SAgain => 0
  }

  function RefsPredPc(pc: PredPc, x: nat): nat {
    match pc
    case PStart => 0
    case PCas(p, ps) => One(p.a, x) + One(ps.a, x)
    case PAgain => 0
    case PTest(p) => One(p.a, x)
    case PSkip(p) => One(p.a, x)
    case PSkipCas(p, pp) => One(p.a, x) + One(pp.a, x)
    case PRetry => 0
    case PLast(p) => One(p.a, x)
  }

  function RefsU(pc: UnlinkPc, x: nat): nat {
    match pc
    case UStart => 0
    case USpin => 0
    case ULock(p) => One(p, x)
    case UMark(p) => One(p, x)
    case ULoop(i) => One(i, x)
    case UPeek(i) => One(i, x)
  }

  /**
   After its compare-and-swap on p->succ an insert (BCheck, BUndo) holds the reference that
   p->succ had to ps, and owes one for the n it stored there.
   */
  function RefsIns(i: Ins, pc: InsertPc, x: nat): nat {
    match pc
    case ILock(_) => i.bag[x]
    case IWait => i.bag[x]
    case BWait(a, y) => RefsI(i, x) + RefsA(i, a, x) + One(y, x)
    case BSucc(a, y) => RefsI(i, x) + RefsA(i, a, x) + One(y, x) + One(a, x) + One(y, x)
    case BPred(a, y) => RefsI(i, x) + RefsA(i, a, x) + One(y, x) + One(InsertPred(i, a, y), x)
    case BDeref(a, y) => RefsI(i, x) + RefsA(i, a, x) + One(y, x)
    case BTest(a, y, ps) => RefsI(i, x) + RefsA(i, a, x) + One(y, x) + One(ps.a, x)
    case BCas(a, y, ps) => RefsI(i, x) + RefsA(i, a, x) + One(y, x) + One(ps.a, x)
    case BCheck(a, y, ps) => i.bag[x] + RefsA(i, a, x) + One(y, x) + 2 * One(ps.a, x)
    case BUndo(a, y, ps) => i.bag[x] + RefsA(i, a, x) + One(y, x) + 2 * One(ps.a, x)
    case FSucc(a, y, ps) => RefsI(i, x) + RefsA(i, a, x) + One(y, x) + One(ps, x)
    case FPred(a, y, ps) => RefsI(i, x) + RefsA(i, a, x) + One(y, x) + One(ps, x) + One(InsertSucc(i, a, y), x)
    case IFix(a) => RefsI(i, x) + One(a, x)
  }

  /** References to x that a thread's control point accounts for. */
  function Refs(c: Ctl, x: nat): nat {
    match c
    case Idle(bag) => bag[x]
    case InSucc(_, pc, k) => RefsS(pc, x) + RefsP(k, x)
    case InPred(_, pc, k) => RefsPredPc(pc, x) + RefsP(k, x)
    case InUnlink(_, pc, k) => RefsU(pc, x) + RefsB(k, x)
    case InRelease(n, _, _, k) => One(n, x) + RefsR(k, x)
    case InInsert(i, pc) => RefsIns(i, pc, x)
    case InRobust(n, bag, _) => One(n, x) + bag[x]
  }

  /** References to x held by a thread, those still queued to be taken or given back included. */
  function Held(th: Thread, x: nat): int { Refs(th.ctl, x) + Net(th.pend, x) }


  // ----- Locks and marks -----

  function Owns(c: Ctl, f: Fld): nat {
    match c
    case InUnlink(_, UMark(p), _) => if f == Fld(p, Succ) then 1 else 0
    case InInsert(i, BCheck(x, y, _)) => if f == Fld(InsertPred(i, x, y), Succ) then 1 else 0
    case InInsert(i, BUndo(x, y, _)) => if f == Fld(InsertPred(i, x, y), Succ) then 1 else 0
    case _ => 0
  }

  /** DEREF locks on f that a thread owns. */
  function Locks(th: Thread, f: Fld): nat { Owns(th.ctl, f) + Unlocks(th.pend, f) }

  function MarkedP(k: PtrK, n: nat): nat {
    match k
    case KPred(_, _, k') => MarkedP(k', n)
    case KUnlink(m, at, _) => if at.APred? then 0 else One(m, n)
    case _ => 0
  }

  function Marked(c: Ctl, n: nat): nat {
    match c
    case InSucc(_, _, k) => MarkedP(k, n)
    case InPred(_, _, k) => MarkedP(k, n)
    case InUnlink(m, pc, _) => if pc.ULoop? || pc.UPeek? then One(m, n) else 0
    case _ => 0
  }

  /** Successful unlinks of n that a thread has under way: mark set, result not yet returned. */
  function Unreported(th: Thread, n: nat): nat { Marked(th.ctl, n) + Returneds(th.pend, n) }

  /**
   Every reference still to be taken is one the control point already counts, and beside these it
   counts one for each unlink that is marked and not yet reported.
   */
  ghost predicate Covered(th: Thread) {
    forall x :: x != NIL ==> Acqs(th.pend, x) + Unreported(th, x) <= Refs(th.ctl, x)
  }

  // ----- Every node a thread works on is referenced by it, or is the head -----

  predicate Safe(n: nat, refs: nat) { n == NIL || n == HEAD || refs >= 1 }

  predicate AnchorOk(i: Ins, x: nat) { i.own || x == HEAD }

  /** The caller of an insert holds the node it named as the anchor. */
  predicate CallerOk(i: Ins) { AnchorOk(i, i.rel) && (i.own ==> i.bag[i.rel] >= 1) }

  predicate GuardedP(k: PtrK) {
    match k
    case KPred(n, _, k') => Safe(n, RefsP(k', n)) && GuardedP(k')
    case KUnlink(n, _, k') => n == k'.n
    case KInsert(i, at) =>
      CallerOk(i) && (match at
                             case ALook(x) => AnchorOk(i, x)
                             case AFix(_) => i.own
                             case ALinked(x, _) => AnchorOk(i, x))
    case _ => true
  }

  predicate Guarded(c: Ctl) {
    match c
    case InSucc(n, _, k) => Safe(n, RefsP(k, n)) && GuardedP(k)
    case InPred(n, _, k) => Safe(n, RefsP(k, n)) && GuardedP(k)
    case InUnlink(n, _, k) => n == k.n
    case InRelease(n, _, _, k) => k.KReinsert? ==> n == k.i.n && CallerOk(k.i.(bag := k.i.bag + multiset{n}))
    case InInsert(i, pc) =>
      CallerOk(i) && (match pc
                             case ILock(_) => true
                             case IWait => true
                             case IFix(_) => i.own
                             case _ => AnchorOk(i, pc.x))
    case _ => true
  }

  // ----- The books balance -----

  /** The state of the books after a thread changed from c to th, with the given changes. */
  ghost predicate Books(c: Ctl, th: Thread, x: nat, f: Fld, refs: int, locks: int, marks: int) {
    && Held(th, x) == Refs(c, x) + refs
    && Locks(th, f) == Owns(c, f) + locks
    && Unreported(th, x) == Marked(c, x) + marks
    && Acqs(th.pend, x) + Unreported(th, x) <= Refs(th.ctl, x)
    && Guarded(th.ctl)
  }

  lemma {:induction false} RetBoolBooks(k: BoolK, b: bool, q: seq<Micro>, x: nat, f: Fld)
    requires Acqs(q, x) == 0 && Returneds(q, x) <= One(k.n, x)
    ensures var th := RetBool(k, b, q);
            && Held(th, x) == RefsB(k, x) + Net(q, x)
            && Locks(th, f) == Unlocks(q, f)
            && Unreported(th, x) == Returneds(q, x)
            && Acqs(th.pend, x) == 0 && Unreported(th, x) <= Refs(th.ctl, x)
            && Guarded(th.ctl)
  {
    hide Then, Nothing, Net, Acqs, Unlocks, Returneds;
  }

  lemma {:induction false} StartInsertBooks(i: Ins, q: seq<Micro>, x: nat, f: Fld)
    requires Acqs(q, x) == 0 && Returneds(q, x) == 0 && CallerOk(i)
    ensures var th := StartInsert(i, q);
            && Held(th, x) == i.bag[x] + Net(q, x)
            && Locks(th, f) == Unlocks(q, f)
            && Unreported(th, x) == Returneds(q, x)
            && Acqs(th.pend, x) + Unreported(th, x) <= Refs(th.ctl, x)
            && Guarded(th.ctl)
  {
    hide Then, Nothing, Net, Acqs, Unlocks, Returneds;
  }

  /** The state of the books after a pointer v was returned to k with q queued. */
  ghost predicate Returns(k: PtrK, v: Tag, q: seq<Micro>, th: Thread, x: nat, f: Fld) {
    && Held(th, x) == RefsP(k, x) + One(v.a, x) + Net(q, x)
    && Locks(th, f) == Unlocks(q, f)
    && Unreported(th, x) == MarkedP(k, x) + Returneds(q, x)
    && Acqs(th.pend, x) + Unreported(th, x) <= Refs(th.ctl, x)
    && Guarded(th.ctl)
  }

  lemma {:induction false} UnlinkGotBooks(n: nat, at: UnlinkAt, k: BoolK, v: Tag, q: seq<Micro>, x: nat, f: Fld)
    requires x != NIL && n == k.n && Acqs(q, x) == 0 && Returneds(q, x) == 0
    ensures Returns(KUnlink(n, at, k), v, q, UnlinkGot(n, at, k, v, q), x, f)
  {
    hide Returns, UnlinkGot;
    match at
    case APred => UnlinkLostBooks(n, k, v, q, x, f);
    case APredI(i) => UnlinkRepairedBooks(n, i, k, v, q, x, f);
    case _ => UnlinkFoundBooks(n, at, k, v, q, x, f);
  }

  lemma {:induction false} UnlinkFoundBooks(n: nat, at: UnlinkAt, k: BoolK, v: Tag, q: seq<Micro>, x: nat, f: Fld)
    requires x != NIL && n == k.n && Acqs(q, x) == 0 && Returneds(q, x) == 0 && (at.ASuccP? || at.ASucc? || at.ASuccI?)
    ensures Returns(KUnlink(n, at, k), v, q, UnlinkGot(n, at, k, v, q), x, f)
  {
    hide Then, Net, Acqs, Unlocks, Returneds, RetBool;
  }

  lemma {:induction false} UnlinkRepairedBooks(n: nat, i: nat, k: BoolK, v: Tag, q: seq<Micro>, x: nat, f: Fld)
    requires x != NIL && n == k.n && Acqs(q, x) == 0 && Returneds(q, x) == 0
    ensures Returns(KUnlink(n, APredI(i), k), v, q, UnlinkGot(n, APredI(i), k, v, q), x, f)
  {
    hide Then, Net, Acqs, Unlocks, Returneds, UnlinkFinish;
    FinishBooks(n, i, k, Then(q, Rel(v.a, 1)), x, f);
  }

  /** The end of a successful unlink: the walk gives back its node and the success is reported. */
  lemma {:induction false} FinishBooks(n: nat, i: nat, k: BoolK, q: seq<Micro>, x: nat, f: Fld)
    requires x != NIL && n == k.n && Acqs(q, x) == 0 && Returneds(q, x) == 0
    ensures var th := UnlinkFinish(n, i, k, q);
            && Held(th, x) == RefsB(k, x) + Net(q, x) + One(i, x) && Locks(th, f) == Unlocks(q, f)
            && Unreported(th, x) == One(n, x) && Acqs(th.pend, x) == 0 && Unreported(th, x) <= Refs(th.ctl, x)
            && Guarded(th.ctl)
  {
    hide Then, Net, Acqs, Unlocks, Returneds, RetBool, Held, Unreported, Locks, Refs, Guarded;
    RetBoolBooks(k, true, Then(Then(q, Rel(i, 1)), Returned(n)), x, f);
  }

  /** The node turns out to be unlinked already, or the search goes on. */
  lemma {:induction false} UnlinkLostBooks(n: nat, k: BoolK, v: Tag, q: seq<Micro>, x: nat, f: Fld)
    requires x != NIL && n == k.n && Acqs(q, x) == 0 && Returneds(q, x) == 0
    ensures Returns(KUnlink(n, APred, k), v, q, UnlinkGot(n, APred, k, v, q), x, f)
  {
    hide Then, Net, Acqs, Unlocks, Returneds, RetBool;
    RetBoolBooks(k, false, q, x, f);
    RetBoolBooks(k, false, Then(q, Rel(v.a, 1)), x, f);
  }

  lemma {:induction false} InsertGotBooks(i: Ins, at: InsertAt, v: Tag, q: seq<Micro>, x: nat, f: Fld)
    requires x != NIL && GuardedP(KInsert(i, at)) && Acqs(q, x) == 0 && Returneds(q, x) == 0
    ensures Returns(KInsert(i, at), v, q, InsertGot(i, at, v, q), x, f)
  {
    hide Returns, InsertGot;
    if at.ALinked? { LinkedGotBooks(i, at.x, at.y, v, q, x, f); } else { LookedGotBooks(i, at, v, q, x, f); }
  }

  lemma {:induction false} LookedGotBooks(i: Ins, at: InsertAt, v: Tag, q: seq<Micro>, x: nat, f: Fld)
    requires x != NIL && GuardedP(KInsert(i, at)) && Acqs(q, x) == 0 && Returneds(q, x) == 0 && !at.ALinked?
    ensures Returns(KInsert(i, at), v, q, InsertGot(i, at, v, q), x, f)
  {
    hide Then, Net, Acqs, Unlocks, Returneds;
  }

  lemma {:induction false} LinkedGotBooks(i: Ins, a: nat, b: nat, v: Tag, q: seq<Micro>, x: nat, f: Fld)
    requires x != NIL && GuardedP(KInsert(i, ALinked(a, b))) && Acqs(q, x) == 0 && Returneds(q, x) == 0
    ensures Returns(KInsert(i, ALinked(a, b)), v, q, InsertGot(i, ALinked(a, b), v, q), x, f)
  {
    hide Then, Net, Acqs, Unlocks, Returneds;
  }

  /** Returning a pointer hands its reference to the caller. */
  lemma {:induction false} RetPtrBooks(k: PtrK, v: Tag, q: seq<Micro>, x: nat, f: Fld)
    requires x != NIL && GuardedP(k) && Acqs(q, x) == 0 && Returneds(q, x) == 0
    ensures Returns(k, v, q, RetPtr(k, v, q), x, f)
  {
    hide Then, Net, Acqs, Unlocks, Returneds, UnlinkGot, InsertGot, Returns;
    match k
    case KUnlink(n, at, k') => UnlinkGotBooks(n, at, k', v, q, x, f);
    case KInsert(i, at) => InsertGotBooks(i, at, v, q, x, f);
    case KPred(n, p, k') => PredGotBooks(n, p, k', v, q, x, f);
    case _ => ApiGotBooks(k, v, q, x, f);
  }

  lemma {:induction false} PredGotBooks(n: nat, p: Tag, k: PtrK, v: Tag, q: seq<Micro>, x: nat, f: Fld)
    requires x != NIL && GuardedP(KPred(n, p, k)) && Acqs(q, x) == 0 && Returneds(q, x) == 0
    ensures Returns(KPred(n, p, k), v, q, RetPtr(KPred(n, p, k), v, q), x, f)
  {
    hide Then, Net, Acqs, Unlocks, Returneds, UnlinkGot, InsertGot;
    MarkedIsHeld(k, x);
  }

  lemma {:induction false} ApiGotBooks(k: PtrK, v: Tag, q: seq<Micro>, x: nat, f: Fld)
    requires x != NIL && GuardedP(k) && Acqs(q, x) == 0 && Returneds(q, x) == 0 && (k.KApi? || k.KPop? || k.KPopNext?)
    ensures Returns(k, v, q, RetPtr(k, v, q), x, f)
  {
    hide Then, Net, Acqs, Unlocks, Returneds, UnlinkGot, InsertGot;
  }

  /** Who waits for a pointer on behalf of a marked unlink holds the node. */
  lemma {:induction false} MarkedIsHeld(k: PtrK, x: nat)
    requires GuardedP(k)
    ensures MarkedP(k, x) <= RefsP(k, x)
  {
    match k
    case KPred(_, _, k') => MarkedIsHeld(k', x);
    case _ =>
  }

  /** The operation of a control point moves the reference a link holds, and takes or frees its lock. */
  function MovedRefs(c: Ctl, ok: bool, x: nat): int {
    match NextOp(c)
    case Cas(_, was, now) => if ok then One(was.a, x) - One(now.a, x) else 0
    case Xchg(_, now) => if c.InInsert? then One(c.i.n, x) - One(now.a, x) else 0
    case _ => 0
  }

  function MovedLocks(c: Ctl, ok: bool, f: Fld): int {
    match NextOp(c)
    case Lock(g) => if ok && f == g then 1 else 0
    case Cas(g, was, now) => if ok && f == g then (if now.de then 1 else 0) - (if was.de then 1 else 0) else 0
    case Xchg(g, _) => if f == g then -1 else 0
    case _ => 0
  }

  predicate IsMark(c: Ctl) { c.InUnlink? && c.upc.UMark? }

  function MovedMarks(c: Ctl, ok: bool, n: nat): int { if IsMark(c) && ok then One(c.n, n) else 0 }

  lemma {:induction false} SuccStartBooks(n: nat, k: PtrK, v: Ptr, ok: bool, x: nat, f: Fld)
    requires var c := InSucc(n, SStart, k); x != NIL && Guarded(c)
    ensures var c := InSucc(n, SStart, k);
            Books(c, AfterSucc(n, c.spc, k, v, ok), x, f, MovedRefs(c, ok, x), MovedLocks(c, ok, f), 0)
  {
    hide Then, Nothing, Net, Acqs, Unlocks, Returneds, RetPtr, RefsP, MarkedP, GuardedP;
    MarkedIsHeld(k, x);
    if ok && v.a == NIL { RetPtrBooks(k, Strip(v), Deref(Fld(n, Succ), v), x, f); }
  }

  lemma {:induction false} SuccTestBooks(n: nat, s: Tag, k: PtrK, v: Ptr, ok: bool, x: nat, f: Fld)
    requires var c := InSucc(n, STest(s), k); x != NIL && Guarded(c)
    ensures var c := InSucc(n, STest(s), k);
            Books(c, AfterSucc(n, c.spc, k, v, ok), x, f, MovedRefs(c, ok, x), MovedLocks(c, ok, f), 0)
  {
    hide Then, Nothing, Net, Acqs, Unlocks, Returneds, RetPtr;
    MarkedIsHeld(k, x);
    if !v.fl { RetPtrBooks(k, s, Nothing(), x, f); }
  }

  lemma {:induction false} SuccNextBooks(n: nat, s: Tag, k: PtrK, v: Ptr, ok: bool, x: nat, f: Fld)
    requires var c := InSucc(n, SNext(s), k); x != NIL && Guarded(c)
    ensures var c := InSucc(n, SNext(s), k);
            Books(c, AfterSucc(n, c.spc, k, v, ok), x, f, MovedRefs(c, ok, x), MovedLocks(c, ok, f), 0)
  {
    hide Then, Nothing, Net, Acqs, Unlocks, Returneds, RetPtr;
    MarkedIsHeld(k, x);
    if ok {}
  }

  lemma {:induction false} SuccCasBooks(n: nat, s: Tag, ss: Tag, k: PtrK, v: Ptr, ok: bool, x: nat, f: Fld)
    requires var c := InSucc(n, SCas(s, ss), k); x != NIL && Guarded(c)
    ensures var c := InSucc(n, SCas(s, ss), k);
            Books(c, AfterSucc(n, c.spc, k, v, ok), x, f, MovedRefs(c, ok, x), MovedLocks(c, ok, f), 0)
  {
    hide Then, Nothing, Net, Acqs, Unlocks, Returneds, RetPtr, RefsP, MarkedP, GuardedP;
    MarkedIsHeld(k, x);
    if ok {}
  }

  lemma {:induction false} SuccAgainBooks(n: nat, k: PtrK, v: Ptr, ok: bool, x: nat, f: Fld)
    requires var c := InSucc(n, SAgain, k); x != NIL && Guarded(c)
    ensures var c := InSucc(n, SAgain, k);
            Books(c, AfterSucc(n, c.spc, k, v, ok), x, f, MovedRefs(c, ok, x), MovedLocks(c, ok, f), 0)
  {
    hide Then, Nothing, Net, Acqs, Unlocks, Returneds, RetPtr;
    MarkedIsHeld(k, x);
    if ok {}
  }

  lemma {:induction false} SuccBooks(c: Ctl, v: Ptr, ok: bool, x: nat, f: Fld)
    requires c.InSucc? && x != NIL && Guarded(c)
    ensures Books(c, AfterSucc(c.n, c.spc, c.k, v, ok), x, f, MovedRefs(c, ok, x), MovedLocks(c, ok, f), 0)
  {
    hide Books, AfterSucc, Guarded, MovedRefs, MovedLocks;
    match c.spc
    case SStart => SuccStartBooks(c.n, c.k, v, ok, x, f);
    case STest(s) => SuccTestBooks(c.n, s, c.k, v, ok, x, f);
    case SNext(s) => SuccNextBooks(c.n, s, c.k, v, ok, x, f);
    case SCas(s, ss) => SuccCasBooks(c.n, s, ss, c.k, v, ok, x, f);
    case SAgain => SuccAgainBooks(c.n, c.k, v, ok, x, f);
  }

  /** The forward search of pred() from p holds p beside what its caller holds. */
  lemma {:induction false} SearchBooks(n: nat, p: Tag, k: PtrK, x: nat)
    requires Safe(n, RefsP(k, n)) && GuardedP(k)
    ensures var c := InSucc(p.a, SStart, KPred(n, p, k));
            Refs(c, x) == One(p.a, x) + RefsP(k, x) && Marked(c, x) == MarkedP(k, x) && Guarded(c)
  {
  }

  lemma {:induction false} PredStartBooks(n: nat, k: PtrK, v: Ptr, ok: bool, x: nat, f: Fld)
    requires var c := InPred(n, PStart, k); x != NIL && Guarded(c)
    ensures var c := InPred(n, PStart, k);
            Books(c, AfterPred(n, c.ppc, k, v, ok), x, f, MovedRefs(c, ok, x), MovedLocks(c, ok, f), 0)
  {
    hide Then, Nothing, Net, Acqs, Unlocks, Returneds, RetPtr, RefsP, MarkedP, GuardedP;
    MarkedIsHeld(k, x);
    SearchBooks(n, Strip(v), k, x);
    if ok && v.a == NIL { RetPtrBooks(k, Strip(v), Deref(Fld(n, Pred), v), x, f); }
  }

  lemma {:induction false} PredCasBooks(n: nat, p: Tag, ps: Tag, k: PtrK, v: Ptr, ok: bool, x: nat, f: Fld)
    requires var c := InPred(n, PCas(p, ps), k); x != NIL && Guarded(c)
    ensures var c := InPred(n, PCas(p, ps), k);
            Books(c, AfterPred(n, c.ppc, k, v, ok), x, f, MovedRefs(c, ok, x), MovedLocks(c, ok, f), 0)
  {
    hide Then, Nothing, Net, Acqs, Unlocks, Returneds, RetPtr, RefsP, MarkedP, GuardedP;
    if ok { PredCasDone(n, p, ps, k, v, x, f); } else { MarkedIsHeld(k, x); }
  }

  lemma {:induction false} PredCasDone(n: nat, p: Tag, ps: Tag, k: PtrK, v: Ptr, x: nat, f: Fld)
    requires var c := InPred(n, PCas(p, ps), k); x != NIL && Guarded(c)
    ensures var c := InPred(n, PCas(p, ps), k);
            Books(c, AfterPred(n, c.ppc, k, v, true), x, f, MovedRefs(c, true, x), MovedLocks(c, true, f), 0)
  {
    hide Then, Nothing, Net, Acqs, Unlocks, Returneds, RetPtr, RefsP, MarkedP, GuardedP;
    MarkedIsHeld(k, x);
    SearchBooks(n, Tag(ps.a, p.fl), k, x);
  }

  lemma {:induction false} PredAgainBooks(n: nat, k: PtrK, v: Ptr, ok: bool, x: nat, f: Fld)
    requires var c := InPred(n, PAgain, k); x != NIL && Guarded(c)
    ensures var c := InPred(n, PAgain, k);
            Books(c, AfterPred(n, c.ppc, k, v, ok), x, f, MovedRefs(c, ok, x), MovedLocks(c, ok, f), 0)
  {
    hide Then, Nothing, Net, Acqs, Unlocks, Returneds, RetPtr, RefsP, MarkedP, GuardedP;
    MarkedIsHeld(k, x);
    SearchBooks(n, Strip(v), k, x);
    if ok {}
  }

  lemma {:induction false} PredTestBooks(n: nat, p: Tag, k: PtrK, v: Ptr, ok: bool, x: nat, f: Fld)
    requires var c := InPred(n, PTest(p), k); x != NIL && Guarded(c)
    ensures var c := InPred(n, PTest(p), k);
            Books(c, AfterPred(n, c.ppc, k, v, ok), x, f, MovedRefs(c, ok, x), MovedLocks(c, ok, f), 0)
  {
    hide Then, Nothing, Net, Acqs, Unlocks, Returneds, RetPtr;
    MarkedIsHeld(k, x);
  }

  /** Stepping over a deleted node. */
  lemma {:induction false} PredSkipBooks(n: nat, p: Tag, k: PtrK, v: Ptr, ok: bool, x: nat, f: Fld)
    requires var c := InPred(n, PSkip(p), k); x != NIL && Guarded(c)
    ensures var c := InPred(n, PSkip(p), k);
            Books(c, AfterPred(n, c.ppc, k, v, ok), x, f, MovedRefs(c, ok, x), MovedLocks(c, ok, f), 0)
  {
    hide Then, Nothing, Net, Acqs, Unlocks, Returneds, RetPtr;
    MarkedIsHeld(k, x);
    if ok {}
  }

  lemma {:induction false} PredSkipCasBooks(n: nat, p: Tag, pp: Tag, k: PtrK, v: Ptr, ok: bool, x: nat, f: Fld)
    requires var c := InPred(n, PSkipCas(p, pp), k); x != NIL && Guarded(c)
    ensures var c := InPred(n, PSkipCas(p, pp), k);
            Books(c, AfterPred(n, c.ppc, k, v, ok), x, f, MovedRefs(c, ok, x), MovedLocks(c, ok, f), 0)
  {
    hide Then, Nothing, Net, Acqs, Unlocks, Returneds, RetPtr, RefsP, MarkedP, GuardedP;
    if ok { PredSkipDone(n, p, pp, k, v, x, f); } else { MarkedIsHeld(k, x); }
  }

  lemma {:induction false} PredSkipDone(n: nat, p: Tag, pp: Tag, k: PtrK, v: Ptr, x: nat, f: Fld)
    requires var c := InPred(n, PSkipCas(p, pp), k); x != NIL && Guarded(c)
    ensures var c := InPred(n, PSkipCas(p, pp), k);
            Books(c, AfterPred(n, c.ppc, k, v, true), x, f, MovedRefs(c, true, x), MovedLocks(c, true, f), 0)
  {
    hide Then, Nothing, Net, Acqs, Unlocks, Returneds, RetPtr, RefsP, MarkedP, GuardedP;
    MarkedIsHeld(k, x);
    SearchBooks(n, pp, k, x);
  }

  lemma {:induction false} PredRetryBooks(n: nat, k: PtrK, v: Ptr, ok: bool, x: nat, f: Fld)
    requires var c := InPred(n, PRetry, k); x != NIL && Guarded(c)
    ensures var c := InPred(n, PRetry, k);
            Books(c, AfterPred(n, c.ppc, k, v, ok), x, f, MovedRefs(c, ok, x), MovedLocks(c, ok, f), 0)
  {
    hide Then, Nothing, Net, Acqs, Unlocks, Returneds, RetPtr, RefsP, MarkedP, GuardedP;
    MarkedIsHeld(k, x);
    SearchBooks(n, Strip(v), k, x);
    if ok {}
  }

  lemma {:induction false} PredLastBooks(n: nat, p: Tag, k: PtrK, v: Ptr, ok: bool, x: nat, f: Fld)
    requires var c := InPred(n, PLast(p), k); x != NIL && Guarded(c)
    ensures var c := InPred(n, PLast(p), k);
            Books(c, AfterPred(n, c.ppc, k, v, ok), x, f, MovedRefs(c, ok, x), MovedLocks(c, ok, f), 0)
  {
    hide Then, Nothing, Net, Acqs, Unlocks, Returneds, RetPtr;
    MarkedIsHeld(k, x);
    RetPtrBooks(k, Tag(p.a, v.fl), Nothing(), x, f);
  }

  lemma {:induction false} PredBooks(c: Ctl, v: Ptr, ok: bool, x: nat, f: Fld)
    requires c.InPred? && x != NIL && Guarded(c)
    ensures Books(c, AfterPred(c.n, c.ppc, c.k, v, ok), x, f, MovedRefs(c, ok, x), MovedLocks(c, ok, f), 0)
  {
    hide Books, AfterPred, Guarded, MovedRefs, MovedLocks;
    match c.ppc
    case PStart => PredStartBooks(c.n, c.k, v, ok, x, f);
    case PCas(p, ps) => PredCasBooks(c.n, p, ps, c.k, v, ok, x, f);
    case PAgain => PredAgainBooks(c.n, c.k, v, ok, x, f);
    case PTest(p) => PredTestBooks(c.n, p, c.k, v, ok, x, f);
    case PSkip(p) => PredSkipBooks(c.n, p, c.k, v, ok, x, f);
    case PSkipCas(p, pp) => PredSkipCasBooks(c.n, p, pp, c.k, v, ok, x, f);
    case PRetry => PredRetryBooks(c.n, c.k, v, ok, x, f);
    case PLast(p) => PredLastBooks(c.n, p, c.k, v, ok, x, f);
  }

  lemma {:induction false} UnlinkLookBooks(n: nat, pc: UnlinkPc, k: BoolK, v: Ptr, ok: bool, cnt: int, x: nat, f: Fld)
    requires var c := InUnlink(n, pc, k); x != NIL && Guarded(c) && (pc.UStart? || pc.USpin?)
    ensures var c := InUnlink(n, pc, k);
            Books(c, AfterUnlink(n, c.upc, k, v, ok, cnt), x, f, MovedRefs(c, ok, x), MovedLocks(c, ok, f), MovedMarks(c, ok, x))
  {
    hide Then, Nothing, Net, Acqs, Unlocks, Returneds, RetBool;
    RetBoolBooks(k, false, Nothing(), x, f);
  }

  /** Locking p->succ */
  lemma {:induction false} UnlinkLockBooks(n: nat, p: nat, k: BoolK, v: Ptr, ok: bool, cnt: int, x: nat, f: Fld)
    requires var c := InUnlink(n, ULock(p), k); x != NIL && Guarded(c)
    ensures var c := InUnlink(n, ULock(p), k);
            Books(c, AfterUnlink(n, c.upc, k, v, ok, cnt), x, f, MovedRefs(c, ok, x), MovedLocks(c, ok, f), MovedMarks(c, ok, x))
  {
    hide Then, Nothing, Net, Acqs, Unlocks, Returneds, RetBool;
  }

  /** ... and setting the deletion mark. */
  lemma {:induction false} MarkBooks(n: nat, p: nat, k: BoolK, v: Ptr, ok: bool, cnt: int, x: nat, f: Fld)
    requires var c := InUnlink(n, UMark(p), k); x != NIL && Guarded(c)
    ensures var c := InUnlink(n, UMark(p), k);
            Books(c, AfterUnlink(n, c.upc, k, v, ok, cnt), x, f, MovedRefs(c, ok, x), MovedLocks(c, ok, f), MovedMarks(c, ok, x))
  {
    hide Then, Nothing, Net, Acqs, Unlocks, Returneds, RetBool;
    RetBoolBooks(k, false, Then(Then(Nothing(), Unlock(Fld(p, Succ))), Rel(p, 1)), x, f);
  }

  lemma {:induction false} UnlinkWalkBooks(n: nat, i: nat, pc: UnlinkPc, k: BoolK, v: Ptr, ok: bool, cnt: int, x: nat, f: Fld)
    requires var c := InUnlink(n, pc, k); x != NIL && Guarded(c) && (pc == ULoop(i) || pc == UPeek(i))
    ensures var c := InUnlink(n, pc, k);
            Books(c, AfterUnlink(n, c.upc, k, v, ok, cnt), x, f, MovedRefs(c, ok, x), MovedLocks(c, ok, f), MovedMarks(c, ok, x))
  {
    hide Then, Nothing, Net, Acqs, Unlocks, Returneds, UnlinkFinish;
    FinishBooks(n, i, k, Nothing(), x, f);
  }

  lemma {:induction false} UnlinkBooks(c: Ctl, v: Ptr, ok: bool, cnt: int, x: nat, f: Fld)
    requires c.InUnlink? && x != NIL && Guarded(c)
    ensures Books(c, AfterUnlink(c.n, c.upc, c.uk, v, ok, cnt), x, f,
                  MovedRefs(c, ok, x), MovedLocks(c, ok, f), MovedMarks(c, ok, x))
  {
    hide Books, AfterUnlink, Guarded, MovedRefs, MovedLocks, MovedMarks;
    match c.upc
    case ULock(p) => UnlinkLockBooks(c.n, p, c.uk, v, ok, cnt, x, f);
    case UMark(p) => MarkBooks(c.n, p, c.uk, v, ok, cnt, x, f);
    case ULoop(i) => UnlinkWalkBooks(c.n, i, c.upc, c.uk, v, ok, cnt, x, f);
    case UPeek(i) => UnlinkWalkBooks(c.n, i, c.upc, c.uk, v, ok, cnt, x, f);
    case _ => UnlinkLookBooks(c.n, c.upc, c.uk, v, ok, cnt, x, f);
  }

  lemma {:induction false} ReleaseWaitBooks(n: nat, ins: bool, pc: ReleasePc, k: ReleaseK, v: Ptr, ok: bool, cnt: int, x: nat, f: Fld)
    requires var c := InRelease(n, ins, pc, k); x != NIL && Guarded(c) && !pc.RCasS? && !pc.RCasP?
    ensures var c := InRelease(n, ins, pc, k);
            Books(c, AfterRelease(n, ins, c.rpc, k, v, ok, cnt), x, f, MovedRefs(c, ok, x), MovedLocks(c, ok, f), 0)
  {
    hide Then, Nothing, Net, Acqs, Unlocks, Returneds, StartInsert;
  }

  lemma {:induction false} ReleaseSuccBooks(n: nat, ins: bool, s: nat, p: nat, k: ReleaseK, v: Ptr, ok: bool, cnt: int, x: nat, f: Fld)
    requires var c := InRelease(n, ins, RCasS(s, p), k); x != NIL && Guarded(c)
    ensures var c := InRelease(n, ins, RCasS(s, p), k);
            Books(c, AfterRelease(n, ins, c.rpc, k, v, ok, cnt), x, f, MovedRefs(c, ok, x), MovedLocks(c, ok, f), 0)
  {
    hide Then, Nothing, Net, Acqs, Unlocks, Returneds, StartInsert;
    if ok {}
  }

  lemma {:induction false} ReleasePredBooks(n: nat, ins: bool, p: nat, k: ReleaseK, v: Ptr, ok: bool, cnt: int, x: nat, f: Fld)
    requires var c := InRelease(n, ins, RCasP(p), k); x != NIL && Guarded(c)
    ensures var c := InRelease(n, ins, RCasP(p), k);
            Books(c, AfterRelease(n, ins, c.rpc, k, v, ok, cnt), x, f, MovedRefs(c, ok, x), MovedLocks(c, ok, f), 0)
  {
    hide Then, Nothing, Net, Acqs, Unlocks, Returneds, StartInsert;
    if k.KReinsert? {
      var q := Then(Then(Then(Nothing(), Unflag(Fld(n, Pred))), Unlock(Fld(n, Pred))), Rel(p, 1));
      StartInsertBooks(k.i.(bag := k.i.bag + multiset{n}), q, x, f);
    }
  }

  lemma {:induction false} ReleaseBooks(c: Ctl, v: Ptr, ok: bool, cnt: int, x: nat, f: Fld)
    requires c.InRelease? && x != NIL && Guarded(c)
    ensures Books(c, AfterRelease(c.n, c.ins, c.rpc, c.rk, v, ok, cnt), x, f,
                  MovedRefs(c, ok, x), MovedLocks(c, ok, f), 0)
  {
    hide Books, AfterRelease, Guarded, MovedRefs, MovedLocks;
    match c.rpc
    case RCasS(s, p) => ReleaseSuccBooks(c.n, c.ins, s, p, c.rk, v, ok, cnt, x, f);
    case RCasP(p) => ReleasePredBooks(c.n, c.ins, p, c.rk, v, ok, cnt, x, f);
    case _ => ReleaseWaitBooks(c.n, c.ins, c.rpc, c.rk, v, ok, cnt, x, f);
  }

  /** Locking n */
  lemma {:induction false} InsertLockBooks(i: Ins, pc: InsertPc, v: Ptr, ok: bool, x: nat, f: Fld)
    requires var c := InInsert(i, pc); x != NIL && Guarded(c) && (pc.ILock? || pc.IWait?)
    ensures var c := InInsert(i, pc);
            Books(c, AfterInsert(i, c.ipc, v, ok), x, f, MovedRefs(c, ok, x), MovedLocks(c, ok, f), 0)
  {
    hide Then, Nothing, Net, Acqs, Unlocks, Returneds, StartInsert;
    if pc.IWait? { StartInsertBooks(i, Nothing(), x, f); }
  }

  /** ... and taking the references of its links. */
  lemma {:induction false} LookedBooks(i: Ins, a: nat, y: nat, v: Ptr, ok: bool, x: nat, f: Fld)
    requires var c := InInsert(i, BWait(a, y)); x != NIL && Guarded(c)
    ensures var c := InInsert(i, BWait(a, y));
            Books(c, AfterInsert(i, c.ipc, v, ok), x, f, MovedRefs(c, ok, x), MovedLocks(c, ok, f), 0)
  {
    hide Then, Nothing, Net, Acqs, Unlocks, Returneds, StartInsert;
    if v == EMPTY {}
  }

  /** Linking n to its neighbours. */
  lemma {:induction false} AttachSuccBooks(i: Ins, a: nat, y: nat, v: Ptr, ok: bool, x: nat, f: Fld)
    requires var c := InInsert(i, BSucc(a, y)); x != NIL && Guarded(c)
    ensures var c := InInsert(i, BSucc(a, y));
            Books(c, AfterInsert(i, c.ipc, v, ok), x, f, MovedRefs(c, ok, x), MovedLocks(c, ok, f), 0)
  {
    hide Then, Nothing, Net, Acqs, Unlocks, Returneds, StartInsert;
    if ok {}
  }

  lemma {:induction false} AttachPredBooks(i: Ins, a: nat, y: nat, v: Ptr, ok: bool, x: nat, f: Fld)
    requires var c := InInsert(i, BPred(a, y)); x != NIL && Guarded(c)
    ensures var c := InInsert(i, BPred(a, y));
            Books(c, AfterInsert(i, c.ipc, v, ok), x, f, MovedRefs(c, ok, x), MovedLocks(c, ok, f), 0)
  {
    hide Then, Nothing, Net, Acqs, Unlocks, Returneds, StartInsert;
    if ok {}
  }

  /** Locking the predecessor's link. */
  lemma {:induction false} LockLinkBooks(i: Ins, a: nat, y: nat, v: Ptr, ok: bool, x: nat, f: Fld)
    requires var c := InInsert(i, BDeref(a, y)); x != NIL && Guarded(c)
    ensures var c := InInsert(i, BDeref(a, y));
            Books(c, AfterInsert(i, c.ipc, v, ok), x, f, MovedRefs(c, ok, x), MovedLocks(c, ok, f), 0)
  {
    hide Then, Nothing, Net, Acqs, Unlocks, Returneds, StartInsert;
    if ok {}
  }

  lemma {:induction false} TestLinkBooks(i: Ins, a: nat, y: nat, ps: Tag, v: Ptr, ok: bool, x: nat, f: Fld)
    requires var c := InInsert(i, BTest(a, y, ps)); x != NIL && Guarded(c)
    ensures var c := InInsert(i, BTest(a, y, ps));
            Books(c, AfterInsert(i, c.ipc, v, ok), x, f, MovedRefs(c, ok, x), MovedLocks(c, ok, f), 0)
  {
    hide Then, Nothing, Net, Acqs, Unlocks, Returneds, StartInsert;
  }

  /** Linking the predecessor to n. */
  lemma {:induction false} LinkBooks(i: Ins, a: nat, y: nat, ps: Tag, v: Ptr, ok: bool, x: nat, f: Fld)
    requires var c := InInsert(i, BCas(a, y, ps)); x != NIL && Guarded(c)
    ensures var c := InInsert(i, BCas(a, y, ps));
            Books(c, AfterInsert(i, c.ipc, v, ok), x, f, MovedRefs(c, ok, x), MovedLocks(c, ok, f), 0)
  {
    hide Then, Nothing, Net, Acqs, Unlocks, Returneds, StartInsert;
    if ok {}
  }

  /** Checking that the predecessor is still on the list, */
  lemma {:induction false} CheckLinkBooks(i: Ins, a: nat, y: nat, ps: Tag, v: Ptr, ok: bool, x: nat, f: Fld)
    requires var c := InInsert(i, BCheck(a, y, ps)); x != NIL && Guarded(c)
    ensures var c := InInsert(i, BCheck(a, y, ps));
            Books(c, AfterInsert(i, c.ipc, v, ok), x, f, MovedRefs(c, ok, x), MovedLocks(c, ok, f), 0)
  {
    hide Then, Nothing, Net, Acqs, Unlocks, Returneds, StartInsert;
    if v.fl {}
  }

  /** ... and taking the link back if not. */
  lemma {:induction false} UndoLinkBooks(i: Ins, a: nat, y: nat, ps: Tag, v: Ptr, ok: bool, x: nat, f: Fld)
    requires var c := InInsert(i, BUndo(a, y, ps)); x != NIL && Guarded(c)
    ensures var c := InInsert(i, BUndo(a, y, ps));
            Books(c, AfterInsert(i, c.ipc, v, ok), x, f, MovedRefs(c, ok, x), MovedLocks(c, ok, f), 0)
  {
    hide Then, Nothing, Net, Acqs, Unlocks, Returneds, StartInsert;
  }

  /** Undoing a failed insert: n is unlinked from its neighbours */
  lemma {:induction false} DetachSuccBooks(i: Ins, a: nat, y: nat, ps: nat, v: Ptr, ok: bool, x: nat, f: Fld)
    requires var c := InInsert(i, FSucc(a, y, ps)); x != NIL && Guarded(c)
    ensures var c := InInsert(i, FSucc(a, y, ps));
            Books(c, AfterInsert(i, c.ipc, v, ok), x, f, MovedRefs(c, ok, x), MovedLocks(c, ok, f), 0)
  {
    hide Then, Nothing, Net, Acqs, Unlocks, Returneds, StartInsert;
    if ok {}
  }

  lemma {:induction false} DetachPredBooks(i: Ins, a: nat, y: nat, ps: nat, v: Ptr, ok: bool, x: nat, f: Fld)
    requires var c := InInsert(i, FPred(a, y, ps)); x != NIL && Guarded(c)
    ensures var c := InInsert(i, FPred(a, y, ps));
            Books(c, AfterInsert(i, c.ipc, v, ok), x, f, MovedRefs(c, ok, x), MovedLocks(c, ok, f), 0)
  {
    hide Then, Nothing, Net, Acqs, Unlocks, Returneds, StartInsert;
    if ok {}
  }

  /** ... and the anchor repaired before the insert is tried again. */
  lemma {:induction false} RetryBooks(i: Ins, a: nat, v: Ptr, ok: bool, x: nat, f: Fld)
    requires var c := InInsert(i, IFix(a)); x != NIL && Guarded(c)
    ensures var c := InInsert(i, IFix(a));
            Books(c, AfterInsert(i, c.ipc, v, ok), x, f, MovedRefs(c, ok, x), MovedLocks(c, ok, f), 0)
  {
    hide Then, Nothing, Net, Acqs, Unlocks, Returneds, StartInsert;
  }

  lemma {:induction false} InsertBooks(c: Ctl, v: Ptr, ok: bool, x: nat, f: Fld)
    requires c.InInsert? && x != NIL && Guarded(c)
    ensures Books(c, AfterInsert(c.i, c.ipc, v, ok), x, f, MovedRefs(c, ok, x), MovedLocks(c, ok, f), 0)
  {
    hide Books, AfterInsert, Guarded, MovedRefs, MovedLocks;
    match c.ipc
    case BWait(a, y) => LookedBooks(c.i, a, y, v, ok, x, f);
    case BSucc(a, y) => AttachSuccBooks(c.i, a, y, v, ok, x, f);
    case BPred(a, y) => AttachPredBooks(c.i, a, y, v, ok, x, f);
    case BDeref(a, y) => LockLinkBooks(c.i, a, y, v, ok, x, f);
    case BTest(a, y, ps) => TestLinkBooks(c.i, a, y, ps, v, ok, x, f);
    case BCas(a, y, ps) => LinkBooks(c.i, a, y, ps, v, ok, x, f);
    case BCheck(a, y, ps) => CheckLinkBooks(c.i, a, y, ps, v, ok, x, f);
    case BUndo(a, y, ps) => UndoLinkBooks(c.i, a, y, ps, v, ok, x, f);
    case FSucc(a, y, ps) => DetachSuccBooks(c.i, a, y, ps, v, ok, x, f);
    case FPred(a, y, ps) => DetachPredBooks(c.i, a, y, ps, v, ok, x, f);
    case IFix(a) => RetryBooks(c.i, a, v, ok, x, f);
    case _ => InsertLockBooks(c.i, c.ipc, v, ok, x, f);
  }

  /** Every control point keeps the books. */
  lemma {:induction false} AfterBooks(c: Ctl, v: Ptr, ok: bool, n: int, x: nat, f: Fld)
    requires x != NIL && Guarded(c)
    ensures Books(c, After(c, v, ok, n), x, f, MovedRefs(c, ok, x), MovedLocks(c, ok, f), MovedMarks(c, ok, x))
  {
    hide AfterSucc, AfterPred, AfterUnlink, AfterRelease, AfterInsert;
    match c
    case InSucc(_, _, _) => SuccBooks(c, v, ok, x, f);
    case InPred(_, _, _) => PredBooks(c, v, ok, x, f);
    case InUnlink(_, _, _) => UnlinkBooks(c, v, ok, n, x, f);
    case InRelease(_, _, _, _) => ReleaseBooks(c, v, ok, n, x, f);
    case InInsert(_, _) => InsertBooks(c, v, ok, x, f);
    case InRobust(_, _, _) => RobustBooks(c, v, ok, n, x, f);
    case Idle(_) =>
  }

  lemma {:induction false} RobustBooks(c: Ctl, v: Ptr, ok: bool, n: int, x: nat, f: Fld)
    requires c.InRobust? && x != NIL
    ensures Books(c, After(c, v, ok, n), x, f, MovedRefs(c, ok, x), MovedLocks(c, ok, f), 0)
  {
    hide Then, Nothing, Net, Acqs, Unlocks, Returneds;
  }

  lemma {:induction false} BeginBooks(api: Api, bag: multiset<nat>, x: nat, f: Fld)
    requires x != NIL
    ensures Books(Idle(bag), Begin(api, bag), x, f, 0, 0, 0)
  {
    hide Books, Begin;
    if api.LlInsert? || api.LlPop? { BeginMoveBooks(api, bag, x, f); } else { BeginNodeBooks(api, bag, x, f); }
  }

  lemma {:induction false} BeginNodeBooks(api: Api, bag: multiset<nat>, x: nat, f: Fld)
    requires x != NIL && !api.LlInsert? && !api.LlPop?
    ensures Books(Idle(bag), Begin(api, bag), x, f, 0, 0, 0)
  {
    hide Then, Nothing, Net, Acqs, Unlocks, Returneds;
  }

  lemma {:induction false} BeginMoveBooks(api: Api, bag: multiset<nat>, x: nat, f: Fld)
    requires x != NIL && (api.LlInsert? || api.LlPop?)
    ensures Books(Idle(bag), Begin(api, bag), x, f, 0, 0, 0)
  {
    hide Then, Nothing, Net, Acqs, Unlocks, Returneds;
  }

  /** Every link or count a control point works on belongs to the head or to a node it references. */
  lemma {:induction false} TargetReferenced(c: Ctl)
    requires Guarded(c) && !(c.InInsert? && (c.ipc.ILock? || c.ipc.IWait?) && c.i.n == Target(NextOp(c)))
    ensures Safe(Target(NextOp(c)), Refs(c, Target(NextOp(c))))
  {
  }
}
