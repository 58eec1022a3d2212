/**
 The lock-free list of service/ll.c as a machine that takes one atomic operation at a
 time, for any number of threads and nodes, under sequential consistency.

 A thread is a control point (`Ctl`) with its local pointers, the continuations of the
 calls it is inside, and a queue of plain atomic operations it has already committed to
 (`Micro`: reference-count updates, unlocking, clearing a flag).  A thread empties the
 queue, one operation per step, before it looks at its control point again.
 */
module LlMachine {
  import opened LlTypes

  // ----- Memory -----

  /** A link as stored in a node: address, FLAGGED bit, DEREF lock bit. */
  datatype Ptr = Ptr(a: nat, fl: bool, de: bool)

  datatype Side = Succ | Pred

  datatype Fld = Fld(node: nat, side: Side)

  /**
   A node.  `marks`, `clears` and `rets` are history: how often the deletion mark was set
   on `pred`, how often it was cleared, and how often `llll_unlink` returned 1 for the node.
   */
  datatype Elem = Elem(succ: Ptr, pred: Ptr, cnt: int, marks: nat, clears: nat, rets: nat)

  const EMPTY := Ptr(NIL, false, false)

  predicate ValidNode(mem: seq<Elem>, n: nat) { NIL < n < |mem| }

  function Get(mem: seq<Elem>, f: Fld): Ptr
    requires ValidNode(mem, f.node)
  {
    if f.side == Succ then mem[f.node].succ else mem[f.node].pred
  }

  /** Stores a link; setting the mark of a `pred` link is recorded in the history. */
  function Put(mem: seq<Elem>, f: Fld, v: Ptr): seq<Elem>
    requires ValidNode(mem, f.node)
  {
    var e := mem[f.node];
    mem[f.node := if f.side == Succ then e.(succ := v)
                  else e.(pred := v,
                          marks := e.marks + (if v.fl && !e.pred.fl then 1 else 0),
                          clears := e.clears + (if !v.fl && e.pred.fl then 1 else 0))]
  }

  function Locked(t: Tag): Ptr { Ptr(t.a, t.fl, true) }
  function Plain(t: Tag): Ptr { Ptr(t.a, t.fl, false) }
  function Strip(p: Ptr): Tag { Tag(p.a, p.fl) }

  // ----- Control -----

  /** Operations that a thread has committed to, each atomic. */
  datatype Micro =
    | Acq(n: nat)            // deref_acquire(n, 1)
    | Rel(n: nat, k: nat)    // deref_release(n, k)
    | Unlock(f: Fld)         // fetch_and(f, ~DEREF)
    | Unflag(f: Fld)         // fetch_and(f, ~FLAGGED)
    | Resize(d: int)         // q_head->size
    | Returned(n: nat)       // history: llll_unlink returned 1 for n

  /** The operations a control point performs on shared memory. */
  datatype Op =
    | Nop
    | Lock(f: Fld)                       // fetch_or(f, DEREF)
    | Cas(f: Fld, was: Ptr, now: Ptr)
    | Read(f: Fld)
    | ReadCnt(n: nat)
    | Xchg(f: Fld, now: Ptr)
    | OrFlag(f: Fld)                     // fetch_or(f, FLAGGED)

  /** succ(), ll.c:270-319 */
  datatype SuccPc = SStart | STest(s: Tag) | SNext(s: Tag) | SCas(s: Tag, ss: Tag) | SAgain

  /** pred(), ll.c:332-426 */
  datatype PredPc =
    | PStart | PCas(p: Tag, ps: Tag) | PAgain | PTest(p: Tag) | PSkip(p: Tag)
    | PSkipCas(p: Tag, pp: Tag) | PRetry | PLast(p: Tag)

  /** llll_unlink() with unlink_ps_lock(), ll.c:590-773 */
  datatype UnlinkPc =
    | UStart | USpin | ULock(p: nat) | UMark(p: nat) | ULoop(i: nat) | UPeek(i: nat)

  /** unlink_release(), ll.c:781-830 */
  datatype ReleasePc =
    | RWait | RLoadS | RLoadP(s: nat) | RFlag(s: nat, p: nat) | RCasS(s: nat, p: nat) | RCasP(p: nat)

  /**
   The insert operations with insert_lock() and insert_between(), ll.c:435-582, 979-1244.
   `x` is the anchor (rel, or the head of the list) and `y` the neighbour looked up from it.
   */
  datatype InsertPc =
    | ILock(de: bool) | IWait
    | BWait(x: nat, y: nat) | BSucc(x: nat, y: nat) | BPred(x: nat, y: nat) | BDeref(x: nat, y: nat)
    | BTest(x: nat, y: nat, ps: Tag) | BCas(x: nat, y: nat, ps: Tag)
    | BCheck(x: nat, y: nat, ps: Tag) | BUndo(x: nat, y: nat, ps: Tag)
    | FSucc(x: nat, y: nat, pa: nat) | FPred(x: nat, y: nat, pa: nat)
    | IFix(x: nat)

  datatype RobustPc = XLock(de: bool) | XWait

  /**
   What an insert knows: the node, whether the anchor is the predecessor (insert_after,
   insert_head) or the successor (insert_before, insert_tail), whether the anchor is a
   referenced `rel` rather than the head of the list, the anchor it was called with, and
   the references the caller keeps.
   */
  datatype Ins = Ins(n: nat, after: bool, own: bool, rel: nat, bag: multiset<nat>)

  /** The predecessor and the successor between which the insert links its node. */
  function InsertPred(i: Ins, x: nat, y: nat): nat { if i.after then x else y }
  function InsertSucc(i: Ins, x: nat, y: nat): nat { if i.after then y else x }

  /** Where llll_unlink waits for a pointer. */
  datatype UnlinkAt = APred | ASuccP(p: nat) | ASucc | APredI(i: nat) | ASuccI(i: nat)

  /** Where an insert waits for a pointer: the lookup, the anchor repair, the repair of s->pred. */
  datatype InsertAt = ALook(x: nat) | AFix(x: nat) | ALinked(x: nat, y: nat)

  /** Who waits for the result of succ() or pred(). */
  datatype PtrK =
    | KPred(n: nat, p: Tag, k: PtrK)
    | KUnlink(n: nat, uat: UnlinkAt, uk: BoolK)
    | KInsert(i: Ins, iat: InsertAt)
    | KApi(bag: multiset<nat>)
    | KPop(front: bool, wait: bool, bag: multiset<nat>)
    | KPopNext(front: bool, wait: bool, m: nat, bag: multiset<nat>)

  /** Who waits for the result of llll_unlink(n). */
  datatype BoolK =
    | KUnlinked(n: nat, wait: bool, bag: multiset<nat>)
    | KPopped(n: nat, front: bool, wait: bool, bag: multiset<nat>)
    | KRobust(n: nat, bag: multiset<nat>)

  /** What follows unlink_release(n). */
  datatype ReleaseK = KDone(bag: multiset<nat>) | KKeep(bag: multiset<nat>) | KReinsert(i: Ins)

  datatype Ctl =
    | Idle(bag: multiset<nat>)
    | InSucc(n: nat, spc: SuccPc, k: PtrK)
    | InPred(n: nat, ppc: PredPc, k: PtrK)
    | InUnlink(n: nat, upc: UnlinkPc, uk: BoolK)
    | InRelease(n: nat, ins: bool, rpc: ReleasePc, rk: ReleaseK)
    | InInsert(i: Ins, ipc: InsertPc)
    | InRobust(n: nat, bag: multiset<nat>, xpc: RobustPc)

  datatype Thread = Thread(pend: seq<Micro>, ctl: Ctl)

  datatype State = State(mem: seq<Elem>, size: int, threads: seq<Thread>)

  // ----- What each control point does next -----

  function NextOp(c: Ctl): Op {
    match c
    case Idle(_) => Nop
    case InSucc(n, pc, _) => SuccOp(n, pc)
    case InPred(n, pc, _) => PredOp(n, pc)
    case InUnlink(n, pc, _) => UnlinkOp(n, pc)
    case InRelease(n, ins, pc, _) => ReleaseOp(n, ins, pc)
    case InInsert(i, pc) => InsertOp(i, pc)
    case InRobust(n, _, XLock(de)) => InsertLock(n, de)
    case InRobust(n, _, XWait) => Read(Fld(n, Pred))
  }

  function SuccOp(n: nat, pc: SuccPc): Op {
    match pc
    case SStart => Lock(Fld(n, Succ))
    case STest(s) => Read(Fld(s.a, Pred))
    case SNext(s) => Lock(Fld(s.a, Succ))
    case SCas(s, ss) => Cas(Fld(n, Succ), Plain(s), Locked(Tag(ss.a, s.fl)))
    case SAgain => Lock(Fld(n, Succ))
  }

  function PredOp(n: nat, pc: PredPc): Op {
    match pc
    case PStart => Lock(Fld(n, Pred))
    case PCas(p, ps) => Cas(Fld(n, Pred), Plain(p), Locked(Tag(ps.a, p.fl)))
    case PAgain => Lock(Fld(n, Pred))
    case PTest(p) => Read(Fld(p.a, Pred))
    case PSkip(p) => Lock(Fld(p.a, Pred))
    case PSkipCas(p, pp) => Cas(Fld(n, Pred), Plain(p), Locked(Tag(pp.a, p.fl)))
    case PRetry => Lock(Fld(n, Pred))
    case PLast(_) => Read(Fld(n, Pred))
  }

  function UnlinkOp(n: nat, pc: UnlinkPc): Op {
    match pc
    case UStart => Read(Fld(n, Succ))
    case USpin => Read(Fld(n, Succ))
    case ULock(p) => Lock(Fld(p, Succ))
    case UMark(p) => Cas(Fld(n, Pred), Ptr(p, false, false), Ptr(p, true, false))
    case ULoop(_) => ReadCnt(n)
    case UPeek(i) => Read(Fld(i, Pred))
  }

  function ReleaseOp(n: nat, ins: bool, pc: ReleasePc): Op {
    match pc
    case RWait => ReadCnt(n)
    case RLoadS => Read(Fld(n, Succ))
    case RLoadP(_) => Read(Fld(n, Pred))
    case RFlag(_, _) => OrFlag(Fld(n, Succ))
    case RCasS(s, _) => Cas(Fld(n, Succ), Ptr(s, ins, false), Ptr(NIL, ins, true))
    case RCasP(p) => Cas(Fld(n, Pred), Ptr(p, true, false), Ptr(NIL, true, true))
  }

  /** insert_lock keeps a DEREF bit it finds on the empty link. */
  function InsertLock(n: nat, de: bool): Op {
    Cas(Fld(n, Succ), Ptr(NIL, false, de), Ptr(NIL, true, de))
  }

  function InsertOp(i: Ins, pc: InsertPc): Op {
    match pc
    case ILock(de) => InsertLock(i.n, de)
    case IWait => Read(Fld(i.n, Pred))
    case BWait(_, _) => Read(Fld(i.n, Pred))
    case BSucc(x, y) => Cas(Fld(i.n, Succ), Ptr(NIL, true, false), Ptr(InsertSucc(i, x, y), true, true))
    case BPred(x, y) => Cas(Fld(i.n, Pred), EMPTY, Ptr(InsertPred(i, x, y), false, true))
    case BDeref(x, y) => Lock(Fld(InsertPred(i, x, y), Succ))
    case BTest(x, y, _) => Read(Fld(InsertPred(i, x, y), Pred))
    case BCas(x, y, ps) => Cas(Fld(InsertPred(i, x, y), Succ), Plain(ps), Locked(Tag(i.n, ps.fl)))
    case BCheck(x, y, _) => Read(Fld(InsertPred(i, x, y), Pred))
    case BUndo(x, y, ps) => Xchg(Fld(InsertPred(i, x, y), Succ), Plain(ps))
    case FSucc(x, y, _) => Cas(Fld(i.n, Succ), Ptr(InsertSucc(i, x, y), true, false), Ptr(NIL, true, true))
    case FPred(x, y, _) => Cas(Fld(i.n, Pred), Ptr(InsertPred(i, x, y), false, false), Ptr(NIL, false, true))
    case IFix(x) => Read(Fld(x, Pred))
  }

  // ----- The ledger of queued operations -----

  function NetOf(m: Micro, x: nat): int {
    match m
    case Acq(n) => -One(n, x)
    case Rel(n, k) => k * One(n, x)
    case _ => 0
  }

  function AcqOf(m: Micro, x: nat): nat { if m == Acq(x) then 1 else 0 }
  function UnlockOf(m: Micro, f: Fld): nat { if m == Unlock(f) then 1 else 0 }
  function ReturnedOf(m: Micro, n: nat): nat { if m == Returned(n) then 1 else 0 }
  function UnflagOf(m: Micro, f: Fld): nat { if m == Unflag(f) then 1 else 0 }

  /** References to x that the queue still gives back, less those it still takes. */
  function Net(q: seq<Micro>, x: nat): int {
    if q == [] then 0 else NetOf(q[0], x) + Net(q[1..], x)
  }

  function Acqs(q: seq<Micro>, x: nat): nat {
    if q == [] then 0 else AcqOf(q[0], x) + Acqs(q[1..], x)
  }

  function Unlocks(q: seq<Micro>, f: Fld): nat {
    if q == [] then 0 else UnlockOf(q[0], f) + Unlocks(q[1..], f)
  }

  function Returneds(q: seq<Micro>, n: nat): nat {
    if q == [] then 0 else ReturnedOf(q[0], n) + Returneds(q[1..], n)
  }

  function Unflags(q: seq<Micro>, f: Fld): nat {
    if q == [] then 0 else UnflagOf(q[0], f) + Unflags(q[1..], f)
  }

  lemma {:induction false} QueueLedger(q: seq<Micro>, m: Micro, x: nat, f: Fld)
    ensures Net(q + [m], x) == Net(q, x) + NetOf(m, x)
    ensures Acqs(q + [m], x) == Acqs(q, x) + AcqOf(m, x)
    ensures Unlocks(q + [m], f) == Unlocks(q, f) + UnlockOf(m, f)
    ensures Returneds(q + [m], x) == Returneds(q, x) + ReturnedOf(m, x)
    ensures Unflags(q + [m], f) == Unflags(q, f) + UnflagOf(m, f)
  {
    if q == [] {
      assert q + [m] == [m];
      assert [m][1..] == [];
    } else {
      assert (q + [m])[1..] == q[1..] + [m];
      QueueLedger(q[1..], m, x, f);
    }
  }

  /** The empty queue. */
  function Nothing(): (r: seq<Micro>)
    ensures forall x {:trigger Net(r, x)} :: Net(r, x) == 0
    ensures forall x {:trigger Acqs(r, x)} :: Acqs(r, x) == 0
    ensures forall f {:trigger Unlocks(r, f)} :: Unlocks(r, f) == 0
    ensures forall n {:trigger Returneds(r, n)} :: Returneds(r, n) == 0
    ensures forall f {:trigger Unflags(r, f)} :: Unflags(r, f) == 0
  {
    []
  }

  /** Appends an operation to the queue. */
  function Then(q: seq<Micro>, m: Micro): (r: seq<Micro>)
    ensures forall x {:trigger Net(r, x)} :: Net(r, x) == Net(q, x) + NetOf(m, x)
    ensures forall x {:trigger Acqs(r, x)} :: Acqs(r, x) == Acqs(q, x) + AcqOf(m, x)
    ensures forall f {:trigger Unlocks(r, f)} :: Unlocks(r, f) == Unlocks(q, f) + UnlockOf(m, f)
    ensures forall n {:trigger Returneds(r, n)} :: Returneds(r, n) == Returneds(q, n) + ReturnedOf(m, n)
    ensures forall f {:trigger Unflags(r, f)} :: Unflags(r, f) == Unflags(q, f) + UnflagOf(m, f)
  {
    assert forall x {:trigger Net(q + [m], x)} :: Net(q + [m], x) == Net(q, x) + NetOf(m, x) by {
      forall x: nat ensures Net(q + [m], x) == Net(q, x) + NetOf(m, x) { QueueLedger(q, m, x, Fld(0, Succ)); }
    }
    assert forall x {:trigger Acqs(q + [m], x)} :: Acqs(q + [m], x) == Acqs(q, x) + AcqOf(m, x) by {
      forall x: nat ensures Acqs(q + [m], x) == Acqs(q, x) + AcqOf(m, x) { QueueLedger(q, m, x, Fld(0, Succ)); }
    }
    assert forall f {:trigger Unlocks(q + [m], f)} :: Unlocks(q + [m], f) == Unlocks(q, f) + UnlockOf(m, f) by {
      forall f ensures Unlocks(q + [m], f) == Unlocks(q, f) + UnlockOf(m, f) { QueueLedger(q, m, 0, f); }
    }
    assert forall n {:trigger Returneds(q + [m], n)} :: Returneds(q + [m], n) == Returneds(q, n) + ReturnedOf(m, n) by {
      forall n: nat ensures Returneds(q + [m], n) == Returneds(q, n) + ReturnedOf(m, n) { QueueLedger(q, m, n, Fld(0, Succ)); }
    }
    assert forall f {:trigger Unflags(q + [m], f)} :: Unflags(q + [m], f) == Unflags(q, f) + UnflagOf(m, f) by {
      forall f ensures Unflags(q + [m], f) == Unflags(q, f) + UnflagOf(m, f) { QueueLedger(q, m, 0, f); }
    }
    q + [m]
  }

  // ----- Continuations -----

  /** The tail of `deref` once the DEREF bit is ours: take a reference unless NULL, unlock. */
  function Deref(f: Fld, v: Ptr): seq<Micro> {
    Then(if v.a == NIL then Nothing() else Then(Nothing(), Acq(v.a)), Unlock(f))
  }

  /** Returns the pointer v, with the reference that goes with it, to the caller. */
  function RetPtr(k: PtrK, v: Tag, q: seq<Micro>): Thread {
    match k
    case KPred(n, p, k') =>
      if v.a != n && !p.fl then Thread(q, InPred(n, PCas(p, v), k'))
      else Thread(Then(q, Rel(v.a, 1)), InPred(n, PTest(p), k'))
    case KUnlink(n, at, k') => UnlinkGot(n, at, k', v, q)
    case KInsert(i, at) => InsertGot(i, at, v, q)
    case KApi(bag) =>
      if v.a == NIL then Thread(q, Idle(bag))
      else if v.a == HEAD then Thread(Then(q, Rel(v.a, 1)), Idle(bag))
      else Thread(q, Idle(bag + multiset{v.a}))
    case KPop(front, wait, bag) =>
      if v.a == HEAD then Thread(Then(q, Rel(v.a, 1)), Idle(bag))
      else Thread(q, InUnlink(v.a, UStart, KPopped(v.a, front, wait, bag)))
    case KPopNext(front, wait, m, bag) =>
      var q' := Then(q, Rel(m, 1));
      if v.a != HEAD then Thread(q', InUnlink(v.a, UStart, KPopped(v.a, front, wait, bag)))
      else Thread(Then(q', Rel(v.a, 1)), PopFrom(front, wait, HEAD, KPop(front, wait, bag)))
  }

  function PopFrom(front: bool, wait: bool, n: nat, k: PtrK): Ctl {
    if front then InSucc(n, SStart, k) else InPred(n, PStart, k)
  }

  function FindPred(n: nat, k: BoolK): Ctl { InPred(n, PStart, KUnlink(n, APred, k)) }

  function UnlinkGot(n: nat, at: UnlinkAt, k: BoolK, v: Tag, q: seq<Micro>): Thread {
    match at
    case APred =>
      if v.a == NIL then RetBool(k, false, q)
      else if v.fl then RetBool(k, false, Then(q, Rel(v.a, 1)))
      else Thread(q, InUnlink(n, ULock(v.a), k))
    case ASuccP(p) =>
      Thread(Then(Then(Then(q, Rel(v.a, 1)), Rel(p, 1)), Resize(-1)), InSucc(n, SStart, KUnlink(n, ASucc, k)))
    case ASucc => Thread(q, InUnlink(n, ULoop(v.a), k))
    case APredI(i) => UnlinkAdvance(n, i, k, Then(q, Rel(v.a, 1)))
    case ASuccI(i) => Thread(Then(q, Rel(i, 1)), InUnlink(n, ULoop(v.a), k))
  }

  function UnlinkAdvance(n: nat, i: nat, k: BoolK, q: seq<Micro>): Thread {
    if i == HEAD then UnlinkFinish(n, i, k, q)
    else Thread(q, InSucc(i, SStart, KUnlink(n, ASuccI(i), k)))
  }

  function UnlinkFinish(n: nat, i: nat, k: BoolK, q: seq<Micro>): Thread {
    RetBool(k, true, Then(Then(q, Rel(i, 1)), Returned(n)))
  }

  function RetBool(k: BoolK, b: bool, q: seq<Micro>): Thread {
    match k
    case KUnlinked(n, wait, bag) =>
      if b && wait then Thread(q, InRelease(n, false, RWait, KDone(bag)))
      else Thread(q, Idle(bag + multiset{n}))
    case KPopped(n, front, wait, bag) =>
      if b && wait then Thread(q, InRelease(n, false, RWait, KDone(bag)))
      else if b then Thread(q, Idle(bag + multiset{n}))
      else Thread(q, PopFrom(front, wait, n, KPopNext(front, wait, n, bag)))
    case KRobust(n, bag) =>
      if b then Thread(q, InRelease(n, true, RWait, KKeep(bag)))
      else Thread(q, InRobust(n, bag, XLock(false)))
  }

  /** unlink_release(n) is over; with `ins` the caller keeps its reference to n. */
  function RetRelease(n: nat, k: ReleaseK, q: seq<Micro>): Thread {
    match k
    case KDone(bag) => Thread(Then(q, Rel(n, 1)), Idle(bag))
    case KKeep(bag) => Thread(q, Idle(bag + multiset{n}))
    case KReinsert(i) => StartInsert(i.(bag := i.bag + multiset{n}), q)
  }

  /** n is locked for insertion: reference n and the anchor, then look up the neighbour. */
  function StartInsert(i: Ins, q: seq<Micro>): Thread {
    var q' := Then(q, Acq(i.n));
    Thread(if i.own then Then(q', Acq(i.rel)) else q', LookUp(i, i.rel))
  }

  function LookUp(i: Ins, x: nat): Ctl {
    if i.after then InSucc(x, SStart, KInsert(i, ALook(x))) else InPred(x, PStart, KInsert(i, ALook(x)))
  }

  function InsertGot(i: Ins, at: InsertAt, v: Tag, q: seq<Micro>): Thread {
    match at
    case ALook(x) => Thread(q, InInsert(i, BWait(x, v.a)))
    case AFix(x) => Thread(Then(q, Rel(x, 1)), LookUp(i, v.a))
    case ALinked(x, y) =>
      var q' := Then(Then(Then(q, Rel(v.a, 1)), Resize(1)), Unflag(Fld(i.n, Succ)));
      var q'' := if i.own then Then(Then(q', Rel(InsertPred(i, x, y), 1)), Rel(InsertSucc(i, x, y), 1)) else Then(q', Rel(y, 1));
      Thread(Then(q'', Rel(i.n, 1)), Idle(i.bag))
  }

  // ----- What each control point makes of the value it saw -----

  /**
   The thread after its operation: `v` is the link it saw, `ok` whether a lock was free or
   a compare-and-swap succeeded, `c` the count it read.  A control point that has to spin,
   or whose assertion fails, stays where it is.
   */
  function After(ctl: Ctl, v: Ptr, ok: bool, c: int): Thread {
    match ctl
    case Idle(_) => Thread(Nothing(), ctl)
    case InSucc(n, pc, k) => AfterSucc(n, pc, k, v, ok)
    case InPred(n, pc, k) => AfterPred(n, pc, k, v, ok)
    case InUnlink(n, pc, k) => AfterUnlink(n, pc, k, v, ok, c)
    case InRelease(n, ins, pc, k) => AfterRelease(n, ins, pc, k, v, ok, c)
    case InInsert(i, pc) => AfterInsert(i, pc, v, ok)
    case InRobust(n, bag, pc) => AfterRobust(n, bag, pc, v, ok)
  }

  /** ptr_cas gives up only when the link differs in more than the DEREF bit. */
  predicate Differs(v: Ptr, t: Tag) { Strip(v) != t }

  function AfterSucc(n: nat, pc: SuccPc, k: PtrK, v: Ptr, ok: bool): Thread {
    var stay := Thread(Nothing(), InSucc(n, pc, k));
    match pc
    case SStart =>
      if !ok then stay
      else if v.a == NIL then RetPtr(k, Strip(v), Deref(Fld(n, Succ), v))
      else Thread(Deref(Fld(n, Succ), v), InSucc(n, STest(Strip(v)), k))
    case STest(s) =>
      if v.fl then Thread(Nothing(), InSucc(n, SNext(s), k)) else RetPtr(k, s, Nothing())
    case SNext(s) =>
      if !ok then stay
      else Thread(Deref(Fld(s.a, Succ), v), InSucc(n, SCas(s, Tag(v.a, s.fl)), k))
    case SCas(s, ss) =>
      if ok then
        Thread(Then(Then(Then(Nothing(), Acq(ss.a)), Unlock(Fld(n, Succ))), Rel(s.a, 2)), InSucc(n, STest(ss), k))
      else if Differs(v, s) then
        Thread(Then(Then(Nothing(), Rel(s.a, 1)), Rel(ss.a, 1)), InSucc(n, SAgain, k))
      else stay
    case SAgain =>
      if !ok then stay else Thread(Deref(Fld(n, Succ), v), InSucc(n, STest(Strip(v)), k))
  }

  /** The top of the loop of pred(): search forward unless p carries a deletion mark. */
  function PredTop(n: nat, p: Tag, k: PtrK): Ctl {
    if p.fl then InPred(n, PTest(p), k) else InSucc(p.a, SStart, KPred(n, p, k))
  }

  function AfterPred(n: nat, pc: PredPc, k: PtrK, v: Ptr, ok: bool): Thread {
    var stay := Thread(Nothing(), InPred(n, pc, k));
    match pc
    case PStart =>
      if !ok then stay
      else if v.a == NIL then RetPtr(k, Strip(v), Deref(Fld(n, Pred), v))
      else Thread(Deref(Fld(n, Pred), v), PredTop(n, Strip(v), k))
    case PCas(p, ps) =>
      if ok then
        Thread(Then(Then(Then(Nothing(), Acq(ps.a)), Unlock(Fld(n, Pred))), Rel(p.a, 2)),
               InSucc(ps.a, SStart, KPred(n, Tag(ps.a, p.fl), k)))
      else if Differs(v, p) then
        Thread(Then(Then(Nothing(), Rel(ps.a, 1)), Rel(p.a, 1)), InPred(n, PAgain, k))
      else stay
    case PAgain =>
      if !ok then stay else Thread(Deref(Fld(n, Pred), v), InSucc(v.a, SStart, KPred(n, Strip(v), k)))
    case PTest(p) =>
      Thread(Nothing(), InPred(n, if v.fl then PSkip(p) else PLast(p), k))
    case PSkip(p) =>
      if !ok then stay else Thread(Deref(Fld(p.a, Pred), v), InPred(n, PSkipCas(p, Strip(v)), k))
    case PSkipCas(p, pp) =>
      if ok then
        Thread(Then(Then(Then(Nothing(), Acq(pp.a)), Unlock(Fld(n, Pred))), Rel(p.a, 2)), PredTop(n, pp, k))
      else if Differs(v, p) then
        Thread(Then(Then(Nothing(), Rel(p.a, 1)), Rel(pp.a, 1)), InPred(n, PRetry, k))
      else stay
    case PRetry =>
      if !ok then stay else Thread(Deref(Fld(n, Pred), v), PredTop(n, Strip(v), k))
    case PLast(p) => RetPtr(k, Tag(p.a, v.fl), Nothing())
  }

  function AfterUnlink(n: nat, pc: UnlinkPc, k: BoolK, v: Ptr, ok: bool, c: int): Thread {
    var stay := Thread(Nothing(), InUnlink(n, pc, k));
    match pc
    case UStart => if v.a == NIL then RetBool(k, false, Nothing()) else Thread(Nothing(), InUnlink(n, USpin, k))
    case USpin => if v.fl then stay else Thread(Nothing(), FindPred(n, k))
    case ULock(p) =>
      if ok && v.a == n then Thread(Nothing(), InUnlink(n, UMark(p), k))
      else if ok then Thread(Then(Then(Nothing(), Unlock(Fld(p, Succ))), Rel(p, 1)), FindPred(n, k))
      else if v.a == n then stay
      else Thread(Then(Nothing(), Rel(p, 1)), FindPred(n, k))
    case UMark(p) =>
      var free := Then(Nothing(), Unlock(Fld(p, Succ)));
      if ok then Thread(free, InSucc(p, SStart, KUnlink(n, ASuccP(p), k)))
      else if v.fl then RetBool(k, false, Then(free, Rel(p, 1)))
      else if v.a != p then Thread(Then(free, Rel(p, 1)), FindPred(n, k))
      else stay
    case ULoop(i) =>
      if c > 1 then Thread(Nothing(), InUnlink(n, UPeek(i), k)) else UnlinkFinish(n, i, k, Nothing())
    case UPeek(i) =>
      if v.a == n then Thread(Nothing(), InPred(i, PStart, KUnlink(n, APredI(i), k))) else UnlinkAdvance(n, i, k, Nothing())
  }

  function AfterRelease(n: nat, ins: bool, pc: ReleasePc, k: ReleaseK, v: Ptr, ok: bool, c: int): Thread {
    var stay := Thread(Nothing(), InRelease(n, ins, pc, k));
    match pc
    case RWait => if c > 1 then stay else Thread(Nothing(), InRelease(n, ins, RLoadS, k))
    case RLoadS => Thread(Nothing(), InRelease(n, ins, RLoadP(v.a), k))
    case RLoadP(s) =>
      if s == NIL then stay
      else Thread(Nothing(), InRelease(n, ins, if ins then RFlag(s, v.a) else RCasS(s, v.a), k))
    case RFlag(s, p) => if v.fl then stay else Thread(Nothing(), InRelease(n, ins, RCasS(s, p), k))
    case RCasS(s, p) =>
      if ok then Thread(Then(Then(Nothing(), Unlock(Fld(n, Succ))), Rel(s, 1)), InRelease(n, ins, RCasP(p), k)) else stay
    case RCasP(p) =>
      if ok then RetRelease(n, k, Then(Then(Then(Nothing(), Unflag(Fld(n, Pred))), Unlock(Fld(n, Pred))), Rel(p, 1))) else stay
  }

  function AfterInsert(i: Ins, pc: InsertPc, v: Ptr, ok: bool): Thread {
    var stay := Thread(Nothing(), InInsert(i, pc));
    match pc
    case ILock(_) =>
      if ok then Thread(Nothing(), InInsert(i, IWait))
      else if v.a != NIL || v.fl then Thread(Nothing(), Idle(i.bag))
      else Thread(Nothing(), InInsert(i, ILock(v.de)))
    case IWait => if v.a != NIL || v.fl then stay else StartInsert(i, Nothing())
    case BWait(x, y) =>
      if v != EMPTY then stay
      else Thread(Then(Then(Nothing(), Acq(InsertPred(i, x, y))), Acq(InsertSucc(i, x, y))), InInsert(i, BSucc(x, y)))
    case BSucc(x, y) => if ok then Thread(Then(Nothing(), Unlock(Fld(i.n, Succ))), InInsert(i, BPred(x, y))) else stay
    case BPred(x, y) => if ok then Thread(Then(Nothing(), Unlock(Fld(i.n, Pred))), InInsert(i, BDeref(x, y))) else stay
    case BDeref(x, y) =>
      if !ok then stay
      else Thread(Deref(Fld(InsertPred(i, x, y), Succ), v),
                  InInsert(i, if v.a != InsertSucc(i, x, y) then FSucc(x, y, v.a) else BTest(x, y, Strip(v))))
    case BTest(x, y, ps) => Thread(Nothing(), InInsert(i, if v.fl then FSucc(x, y, ps.a) else BCas(x, y, ps)))
    case BCas(x, y, ps) =>
      if ok then Thread(Nothing(), InInsert(i, BCheck(x, y, ps)))
      else if Differs(v, ps) then Thread(Nothing(), InInsert(i, FSucc(x, y, ps.a)))
      else stay
    case BCheck(x, y, ps) =>
      if v.fl then Thread(Nothing(), InInsert(i, BUndo(x, y, ps)))
      else Thread(Then(Then(Then(Nothing(), Acq(i.n)), Unlock(Fld(InsertPred(i, x, y), Succ))), Rel(ps.a, 2)),
                  InPred(InsertSucc(i, x, y), PStart, KInsert(i, ALinked(x, y))))
    case BUndo(x, y, ps) => Thread(Nothing(), InInsert(i, FSucc(x, y, ps.a)))
    case FSucc(x, y, ps) => if ok then Thread(Then(Nothing(), Unlock(Fld(i.n, Succ))), InInsert(i, FPred(x, y, ps))) else stay
    case FPred(x, y, ps) =>
      if !ok then stay else
      var q := Then(Then(Then(Then(Nothing(), Unlock(Fld(i.n, Pred))), Rel(InsertPred(i, x, y), 1)), Rel(InsertSucc(i, x, y), 1)), Rel(ps, 1));
      Thread(Then(q, Rel(y, 1)), if i.own then InInsert(i, IFix(x)) else LookUp(i, x))
    case IFix(x) =>
      if !v.fl then Thread(Nothing(), LookUp(i, x))
      else if i.after then Thread(Nothing(), InPred(x, PStart, KInsert(i, AFix(x))))
      else Thread(Nothing(), InSucc(x, SStart, KInsert(i, AFix(x))))
  }

  function AfterRobust(n: nat, bag: multiset<nat>, pc: RobustPc, v: Ptr, ok: bool): Thread {
    match pc
    case XLock(_) =>
      if ok then Thread(Nothing(), InRobust(n, bag, XWait))
      else if v.a != NIL || v.fl then Thread(Nothing(), InUnlink(n, UStart, KRobust(n, bag)))
      else Thread(Nothing(), InRobust(n, bag, XLock(v.de)))
    case XWait => if v.a != NIL || v.fl then Thread(Nothing(), InRobust(n, bag, XWait)) else Thread(Nothing(), Idle(bag + multiset{n}))
  }

  // ----- Steps -----

  /** Calls of the public interface, ll.c:851-1305. */
  datatype Api =
    | LlSucc(n: nat) | LlPred(n: nat) | LlRef(n: nat) | LlRelease(n: nat)
    | LlUnlink(n: nat, wait: bool) | LlUnlinkRelease(n: nat) | LlUnlinkRobust(n: nat)
    | LlInsert(n: nat, after: bool, own: bool, rel: nat, wait: bool)
    | LlPop(front: bool, wait: bool)

  /** The thread that performs the call, given the references its application holds. */
  function Begin(api: Api, bag: multiset<nat>): Thread {
    match api
    case LlSucc(n) => if n == HEAD || n in bag then Thread(Nothing(), InSucc(n, SStart, KApi(bag))) else Thread(Nothing(), Idle(bag))
    case LlPred(n) => if n == HEAD || n in bag then Thread(Nothing(), InPred(n, PStart, KApi(bag))) else Thread(Nothing(), Idle(bag))
    case LlRef(n) => if n != HEAD then Thread(Then(Nothing(), Acq(n)), Idle(bag + multiset{n})) else Thread(Nothing(), Idle(bag))
    case LlRelease(n) =>
      if n in bag then Thread(Then(Nothing(), Rel(n, 1)), Idle(bag - multiset{n})) else Thread(Nothing(), Idle(bag))
    case LlUnlink(n, wait) =>
      if n in bag then Thread(Nothing(), InUnlink(n, UStart, KUnlinked(n, wait, bag - multiset{n}))) else Thread(Nothing(), Idle(bag))
    case LlUnlinkRelease(n) =>
      if n in bag then Thread(Nothing(), InRelease(n, false, RWait, KDone(bag - multiset{n}))) else Thread(Nothing(), Idle(bag))
    case LlUnlinkRobust(n) =>
      if n in bag then Thread(Nothing(), InRobust(n, bag - multiset{n}, XLock(false))) else Thread(Nothing(), Idle(bag))
    case LlInsert(n, after, own, rel, wait) =>
      if (own && rel !in bag) || (!own && rel != HEAD) || (wait && n !in bag) then Thread(Nothing(), Idle(bag))
      else if wait then
        Thread(Nothing(), InRelease(n, true, RWait, KReinsert(Ins(n, after, own, rel, bag - multiset{n}))))
      else Thread(Nothing(), InInsert(Ins(n, after, own, rel, bag), ILock(false)))
    case LlPop(front, wait) => Thread(Nothing(), PopFrom(front, wait, HEAD, KPop(front, wait, bag)))
  }

  /** A thread performs its next operation, an idle one calls the list, or one hands a reference to another. */
  datatype Act = Run(t: nat) | Call(t: nat, api: Api) | Give(t: nat, u: nat, x: nat)

  function Target(op: Op): nat {
    match op
    case Nop => NIL
    case ReadCnt(n) => n
    case Lock(f) => f.node
    case Cas(f, _, _) => f.node
    case Read(f) => f.node
    case Xchg(f, _) => f.node
    case OrFlag(f) => f.node
  }

  /** Effect of an operation on memory. */
  function Apply(mem: seq<Elem>, op: Op): seq<Elem>
    requires ValidNode(mem, Target(op))
  {
    match op
    case Lock(f) => Put(mem, f, Get(mem, f).(de := true))
    case Cas(f, was, now) => if Get(mem, f) == was then Put(mem, f, now) else mem
    case Xchg(f, now) => Put(mem, f, now)
    case OrFlag(f) => Put(mem, f, Get(mem, f).(fl := true))
    case _ => mem
  }

  function Seen(mem: seq<Elem>, op: Op): Ptr
    requires ValidNode(mem, Target(op))
  {
    if op.ReadCnt? || op.Nop? then EMPTY else Get(mem, op.f)
  }

  predicate Ok(mem: seq<Elem>, op: Op)
    requires ValidNode(mem, Target(op))
  {
    match op
    case Lock(f) => !Get(mem, f).de
    case Cas(f, was, _) => Get(mem, f) == was
    case _ => true
  }

  function SetThread(s: State, t: nat, th: Thread): State
    requires t < |s.threads|
  {
    s.(threads := s.threads[t := th])
  }

  /** Memory after a queued operation; one on NULL never happens (the thread has crashed). */
  function ApplyMicro(mem: seq<Elem>, m: Micro): seq<Elem>
    requires MicroEnabled(mem, m)
  {
    match m
    case Acq(n) => mem[n := mem[n].(cnt := mem[n].cnt + 1)]
    case Rel(n, k) => mem[n := mem[n].(cnt := mem[n].cnt - k)]
    case Unlock(f) => Put(mem, f, Get(mem, f).(de := false))
    case Unflag(f) => Put(mem, f, Get(mem, f).(fl := false))
    case Resize(_) => mem
    case Returned(n) => mem[n := mem[n].(rets := mem[n].rets + 1)]
  }

  predicate MicroEnabled(mem: seq<Elem>, m: Micro) {
    match m
    case Acq(n) => ValidNode(mem, n)
    case Rel(n, _) => ValidNode(mem, n)
    case Unlock(f) => ValidNode(mem, f.node)
    case Unflag(f) => ValidNode(mem, f.node)
    case Resize(_) => true
    case Returned(n) => ValidNode(mem, n)
  }

  function Step(s: State, act: Act): State {
    match act
    case Run(t) =>
      if t >= |s.threads| then s else
      var th := s.threads[t];
      if th.pend != [] then
        var m := th.pend[0];
        if !MicroEnabled(s.mem, m) then s
        else SetThread(s.(mem := ApplyMicro(s.mem, m), size := s.size + (if m.Resize? then m.d else 0)),
                       t, th.(pend := th.pend[1..]))
      else
        var op := NextOp(th.ctl);
        if !ValidNode(s.mem, Target(op)) then s
        else
          var c := if op.ReadCnt? then s.mem[op.n].cnt else 0;
          SetThread(s.(mem := Apply(s.mem, op)), t, After(th.ctl, Seen(s.mem, op), Ok(s.mem, op), c))
    case Call(t, api) =>
      if t < |s.threads| && s.threads[t].pend == [] && s.threads[t].ctl.Idle?
      then SetThread(s, t, Begin(api, s.threads[t].ctl.bag)) else s
    case Give(t, u, x) =>
      if t < |s.threads| && u < |s.threads| && t != u && s.threads[t].ctl.Idle? && s.threads[u].ctl.Idle?
         && s.threads[t].pend == [] && s.threads[u].pend == [] && x in s.threads[t].ctl.bag
      then SetThread(SetThread(s, t, Thread([], Idle(s.threads[t].ctl.bag - multiset{x}))),
                     u, Thread([], Idle(s.threads[u].ctl.bag + multiset{x})))
      else s
  }

  /** LL_INIT and LL_INIT_ENTRY: the head points at itself, the other nodes are off the list. */
  function Init(nodes: nat, threads: nat): State {
    State(seq(nodes + 2, i => if i == HEAD then Elem(Ptr(HEAD, false, false), Ptr(HEAD, false, false), 2, 0, 0, 0)
                              else Elem(EMPTY, EMPTY, 0, 0, 0, 0)),
          0,
          seq(threads, _ => Thread([], Idle(multiset{}))))
  }

  /** The state after a run. */
  function Exec(s: State, run: seq<Act>): State {
    if run == [] then s else Step(Exec(s, run[..|run| - 1]), run[|run| - 1])
  }
}
