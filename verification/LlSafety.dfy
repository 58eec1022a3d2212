/**
 Safety of the list machine over every run of any number of threads: reference counts are
 conserved, the DEREF bit is a lock with one owner, and deletion marks are set and cleared in turn.
 */
module LlSafety {
  import opened LlTypes
  import opened LlMachine
  import opened LlLedger

  // ----- Sums over links and threads -----

  function LinkRefs(mem: seq<Elem>, x: nat): nat {
    if mem == [] then 0 else One(mem[0].succ.a, x) + One(mem[0].pred.a, x) + LinkRefs(mem[1..], x)
  }

  function AllHeld(ts: seq<Thread>, x: nat): int {
    if ts == [] then 0 else Held(ts[0], x) + AllHeld(ts[1..], x)
  }

  function AllLocks(ts: seq<Thread>, f: Fld): nat {
    if ts == [] then 0 else Locks(ts[0], f) + AllLocks(ts[1..], f)
  }

  function AllUnreported(ts: seq<Thread>, n: nat): nat {
    if ts == [] then 0 else Unreported(ts[0], n) + AllUnreported(ts[1..], n)
  }

  lemma {:induction false} LinkRefsUpdate(mem: seq<Elem>, j: nat, e: Elem, x: nat)
    requires j < |mem|
    ensures LinkRefs(mem[j := e], x)
         == LinkRefs(mem, x) - One(mem[j].succ.a, x) - One(mem[j].pred.a, x) + One(e.succ.a, x) + One(e.pred.a, x)
  {
    if j == 0 {
      assert mem[j := e][1..] == mem[1..];
    } else {
      assert mem[j := e][1..] == mem[1..][j - 1 := e];
      LinkRefsUpdate(mem[1..], j - 1, e, x);
    }
  }

  lemma {:induction false} AllUpdate(ts: seq<Thread>, t: nat, th: Thread, x: nat, f: Fld)
    requires t < |ts|
    ensures AllHeld(ts[t := th], x) == AllHeld(ts, x) - Held(ts[t], x) + Held(th, x)
    ensures AllLocks(ts[t := th], f) == AllLocks(ts, f) - Locks(ts[t], f) + Locks(th, f)
    ensures AllUnreported(ts[t := th], x) == AllUnreported(ts, x) - Unreported(ts[t], x) + Unreported(th, x)
  {
    hide Held, Locks, Unreported;
    if t == 0 {
      assert ts[t := th][1..] == ts[1..];
    } else {
      assert ts[t := th][1..] == ts[1..][t - 1 := th];
      AllUpdate(ts[1..], t - 1, th, x, f);
    }
  }

  // ----- The invariant -----

  function Bit(b: bool): nat { if b then 1 else 0 }

  /** A control point that owns a lock on p->succ knows the node p->succ leads to. */
  predicate KnowsLink(mem: seq<Elem>, c: Ctl) {
    match c
    case InUnlink(n, UMark(p), _) => ValidNode(mem, p) && mem[p].succ.a == n
    case InInsert(i, BCheck(x, y, _)) => ValidNode(mem, InsertPred(i, x, y)) && mem[InsertPred(i, x, y)].succ.a == i.n
    case InInsert(i, BUndo(x, y, _)) => ValidNode(mem, InsertPred(i, x, y)) && mem[InsertPred(i, x, y)].succ.a == i.n
    case _ => true
  }

  ghost predicate ThreadOk(mem: seq<Elem>, th: Thread) {
    Covered(th) && Guarded(th.ctl) && KnowsLink(mem, th.ctl)
  }

  /** The counts of node x agree with the links and the threads. */
  ghost predicate NodeOk(s: State, x: nat)
    requires ValidNode(s.mem, x)
  {
    && s.mem[x].cnt == LinkRefs(s.mem, x) + AllHeld(s.threads, x)
    && s.mem[x].marks == s.mem[x].clears + Bit(s.mem[x].pred.fl)
    && s.mem[x].marks == s.mem[x].rets + AllUnreported(s.threads, x)
  }

  ghost predicate LockOk(s: State, f: Fld)
    requires ValidNode(s.mem, f.node)
  {
    Bit(Get(s.mem, f).de) == AllLocks(s.threads, f)
  }

  ghost predicate Inv(s: State) {
    && (forall x :: ValidNode(s.mem, x) ==> NodeOk(s, x))
    && (forall f: Fld :: ValidNode(s.mem, f.node) ==> LockOk(s, f))
    && (forall t :: 0 <= t < |s.threads| ==> ThreadOk(s.mem, s.threads[t]))
  }

  // ----- Consequences of the invariant in one state -----

  lemma {:induction false} NetBelow(q: seq<Micro>, x: nat)
    ensures Net(q, x) + Acqs(q, x) >= 0
    ensures q != [] && q[0].Rel? && q[0].n == x ==> Net(q, x) + Acqs(q, x) >= q[0].k
  {
    if q == [] {
    } else {
      NetBelow(q[1..], x);
    }
  }

  lemma {:induction false} HeldNatural(ts: seq<Thread>, t: nat, x: nat)
    requires x != NIL && t < |ts| && forall u :: 0 <= u < |ts| ==> Covered(ts[u])
    ensures 0 <= Held(ts[t], x) <= AllHeld(ts, x)
  {
    hide Net, Acqs, Refs;
    forall u | 0 <= u < |ts| ensures Held(ts[u], x) >= 0 { NetBelow(ts[u].pend, x); }
    HeldSum(ts, t, x);
  }

  lemma {:induction false} HeldSum(ts: seq<Thread>, t: nat, x: nat)
    requires t < |ts| && forall u :: 0 <= u < |ts| ==> Held(ts[u], x) >= 0
    ensures Held(ts[t], x) <= AllHeld(ts, x)
    ensures forall u :: 0 <= u < |ts| && u != t ==> Held(ts[t], x) + Held(ts[u], x) <= AllHeld(ts, x)
  {
    hide Held;
    var rest := ts[1..];
    assert forall u :: 0 <= u < |rest| ==> rest[u] == ts[u + 1];
    if rest != [] {
      HeldSum(rest, if t == 0 then 0 else t - 1, x);
      forall u | 0 <= u < |ts| && u != t
        ensures Held(ts[t], x) + Held(ts[u], x) <= AllHeld(ts, x)
      {
        if t == 0 { HeldSum(rest, u - 1, x); }
      }
    }
  }

  // ----- Operations on memory -----

  /** An operation moves a link from one node to another and leaves all counts alone. */
  lemma {:induction false} ApplyLinks(mem: seq<Elem>, op: Op, x: nat)
    requires ValidNode(mem, Target(op))
    ensures var mem' := Apply(mem, op);
            && |mem'| == |mem|
            && LinkRefs(mem', x) == LinkRefs(mem, x)
                 + (if op.Cas? && Ok(mem, op) then One(op.now.a, x) - One(op.was.a, x) else 0)
                 + (if op.Xchg? then One(op.now.a, x) - One(Get(mem, op.f).a, x) else 0)
  {
    if !op.Nop? && !op.ReadCnt? && Apply(mem, op) != mem {
      LinkRefsUpdate(mem, op.f.node, Apply(mem, op)[op.f.node], x);
    }
  }

  lemma {:induction false} ApplyMicroLinks(mem: seq<Elem>, m: Micro, x: nat)
    requires MicroEnabled(mem, m)
    ensures |ApplyMicro(mem, m)| == |mem|
    ensures LinkRefs(ApplyMicro(mem, m), x) == LinkRefs(mem, x)
  {
    match m
    case Acq(n) => LinkRefsUpdate(mem, n, ApplyMicro(mem, m)[n], x);
    case Rel(n, _) => LinkRefsUpdate(mem, n, ApplyMicro(mem, m)[n], x);
    case Unlock(f) => LinkRefsUpdate(mem, f.node, ApplyMicro(mem, m)[f.node], x);
    case Unflag(f) => LinkRefsUpdate(mem, f.node, ApplyMicro(mem, m)[f.node], x);
    case Resize(_) =>
    case Returned(n) => LinkRefsUpdate(mem, n, ApplyMicro(mem, m)[n], x);
  }

  /** The only compare-and-swap that sets a mark on `pred` is the one of llll_unlink; none clears it. */
  lemma {:induction false} OnlyUnlinkMarks(c: Ctl)
    ensures var op := NextOp(c);
            && (op.Cas? && op.f.side == Pred && !IsMark(c) ==> op.now.fl == op.was.fl)
            && (IsMark(c) ==> op == Cas(Fld(c.n, Pred), Ptr(c.upc.p, false, false), Ptr(c.upc.p, true, false)))
            && ((op.Xchg? || op.OrFlag?) ==> op.f.side == Succ)
  {
  }

  /** A compare-and-swap that accepts a locked link leaves its address alone. */
  lemma {:induction false} CasRespectsLock(c: Ctl)
    ensures var op := NextOp(c);
            && (op.Cas? && op.was.de ==> op.now.a == op.was.a && op.now.de)
            && (op.Xchg? ==> Owns(c, op.f) == 1 && !op.now.de && c.InInsert? && c.ipc.BUndo?)
  {
  }

  // ----- A control point's operation preserves the invariant -----

  ghost predicate AtOp(s: State, t: nat) {
    Inv(s) && t < |s.threads| && s.threads[t].pend == [] && ValidNode(s.mem, Target(NextOp(s.threads[t].ctl)))
  }

  function OpCount(s: State, t: nat): int
    requires t < |s.threads| && ValidNode(s.mem, Target(NextOp(s.threads[t].ctl)))
  {
    var op := NextOp(s.threads[t].ctl);
    if op.ReadCnt? then s.mem[op.n].cnt else 0
  }

  function OpThread(s: State, t: nat): Thread
    requires t < |s.threads| && ValidNode(s.mem, Target(NextOp(s.threads[t].ctl)))
  {
    var c := s.threads[t].ctl;
    var op := NextOp(c);
    After(c, Seen(s.mem, op), Ok(s.mem, op), OpCount(s, t))
  }

  lemma {:induction false} OpCountKept(s: State, t: nat, x: nat)
    requires AtOp(s, t) && ValidNode(s.mem, x)
    ensures var s' := Step(s, Run(t));
            ValidNode(s'.mem, x) && s'.mem[x].cnt == LinkRefs(s'.mem, x) + AllHeld(s'.threads, x)
  {
    hide After, NextOp, Refs, Acqs, Guarded, KnowsLink, LinkRefs, AllHeld, Locks, Unreported;
    var c := s.threads[t].ctl;
    var op := NextOp(c);
    assert ThreadOk(s.mem, s.threads[t]) && NodeOk(s, x);
    AfterBooks(c, Seen(s.mem, op), Ok(s.mem, op), OpCount(s, t), x, Fld(NIL, Succ));
    AllUpdate(s.threads, t, OpThread(s, t), x, Fld(NIL, Succ));
    ApplyLinks(s.mem, op, x);
    CasRespectsLock(c);
    if op.Xchg? { UndoSeesNode(s.mem, c); }
  }

  lemma {:induction false} OpNode(s: State, t: nat, x: nat)
    requires AtOp(s, t) && ValidNode(s.mem, x)
    ensures var s' := Step(s, Run(t)); ValidNode(s'.mem, x) && NodeOk(s', x)
  {
    hide After, NextOp, Refs, Acqs, Guarded, KnowsLink, LinkRefs, AllHeld, Locks, Held;
    var c := s.threads[t].ctl;
    var op := NextOp(c);
    assert ThreadOk(s.mem, s.threads[t]) && NodeOk(s, x);
    OpCountKept(s, t, x);
    AfterBooks(c, Seen(s.mem, op), Ok(s.mem, op), OpCount(s, t), x, Fld(NIL, Succ));
    AllUpdate(s.threads, t, OpThread(s, t), x, Fld(NIL, Succ));
    OnlyUnlinkMarks(c);
  }

  lemma {:induction false} OpLock(s: State, t: nat, f: Fld)
    requires AtOp(s, t) && ValidNode(s.mem, f.node)
    ensures var s' := Step(s, Run(t)); ValidNode(s'.mem, f.node) && LockOk(s', f)
  {
    hide After, NextOp, Refs, Net, Acqs, Guarded, KnowsLink, LinkRefs;
    var c := s.threads[t].ctl;
    var op := NextOp(c);
    assert ThreadOk(s.mem, s.threads[t]) && LockOk(s, f);
    AfterBooks(c, Seen(s.mem, op), Ok(s.mem, op), OpCount(s, t), HEAD, f);
    AllUpdate(s.threads, t, OpThread(s, t), HEAD, f);
    CasRespectsLock(c);
    if op.Xchg? && op.f == f { LocksSum(s.threads, t, t, f); }
  }

  /** Two threads never own the lock on one link; an owner sees it locked. */
  lemma {:induction false} LocksSum(ts: seq<Thread>, t: nat, u: nat, f: Fld)
    requires t < |ts| && u < |ts|
    ensures Locks(ts[t], f) + (if t == u then 0 else Locks(ts[u], f)) <= AllLocks(ts, f)
  {
    hide Locks;
    var rest := ts[1..];
    assert forall v :: 0 <= v < |rest| ==> rest[v] == ts[v + 1];
    if t > 0 && u > 0 { LocksSum(rest, t - 1, u - 1, f); }
    else if t > 0 { LocksSum(rest, t - 1, t - 1, f); }
    else if u > 0 { LocksSum(rest, u - 1, u - 1, f); }
  }

  lemma {:induction false} UndoSeesNode(mem: seq<Elem>, c: Ctl)
    requires KnowsLink(mem, c) && NextOp(c).Xchg?
    ensures c.InInsert? && ValidNode(mem, Target(NextOp(c))) && Get(mem, NextOp(c).f).a == c.i.n
  {
  }

  lemma {:induction false} RetPtrKnows(mem: seq<Elem>, k: PtrK, v: Tag, q: seq<Micro>)
    ensures KnowsLink(mem, RetPtr(k, v, q).ctl)
  {
    hide Then, Nothing;
  }

  lemma {:induction false} WalkKnows(mem: seq<Elem>, c: Ctl, v: Ptr, ok: bool, n: int)
    requires c.InSucc? || c.InPred?
    ensures KnowsLink(mem, After(c, v, ok, n).ctl)
  {
    hide Then, Nothing, RetPtr;
    match c
    case InSucc(m, pc, k) =>
      RetPtrKnows(mem, k, Strip(v), Deref(Fld(m, Succ), v));
      if pc.STest? { RetPtrKnows(mem, k, pc.s, Nothing()); }
    case InPred(m, pc, k) =>
      RetPtrKnows(mem, k, Strip(v), Deref(Fld(m, Pred), v));
      if pc.PLast? { RetPtrKnows(mem, k, Tag(pc.p.a, v.fl), Nothing()); }
  }

  lemma {:induction false} UnlinkKnows(mem: seq<Elem>, c: Ctl, n: int)
    requires c.InUnlink? && KnowsLink(mem, c) && ValidNode(mem, Target(NextOp(c)))
    ensures var op := NextOp(c);
            KnowsLink(Apply(mem, op), After(c, Seen(mem, op), Ok(mem, op), n).ctl)
  {
    hide Then, Nothing;
  }

  lemma {:induction false} InsertKnows(mem: seq<Elem>, c: Ctl, n: int)
    requires c.InInsert? && KnowsLink(mem, c) && ValidNode(mem, Target(NextOp(c)))
    ensures var op := NextOp(c);
            KnowsLink(Apply(mem, op), After(c, Seen(mem, op), Ok(mem, op), n).ctl)
  {
    hide Then, Nothing;
  }

  lemma {:induction false} EndKnows(mem: seq<Elem>, c: Ctl, v: Ptr, ok: bool, n: int)
    requires c.InRelease? || c.InRobust? || c.Idle?
    ensures KnowsLink(mem, After(c, v, ok, n).ctl)
  {
    hide Then, Nothing;
  }

  /** A thread's own operation leaves it knowing the link it has locked. */
  lemma {:induction false} OwnLinkKnown(mem: seq<Elem>, c: Ctl, n: int)
    requires KnowsLink(mem, c) && ValidNode(mem, Target(NextOp(c)))
    ensures var op := NextOp(c);
            KnowsLink(Apply(mem, op), After(c, Seen(mem, op), Ok(mem, op), n).ctl)
  {
    hide After, KnowsLink, NextOp, Apply, Seen, Ok;
    var op := NextOp(c);
    match c
    case InInsert(_, _) => InsertKnows(mem, c, n);
    case InUnlink(_, _, _) => UnlinkKnows(mem, c, n);
    case InSucc(_, _, _) => WalkKnows(Apply(mem, op), c, Seen(mem, op), Ok(mem, op), n);
    case InPred(_, _, _) => WalkKnows(Apply(mem, op), c, Seen(mem, op), Ok(mem, op), n);
    case _ => EndKnows(Apply(mem, op), c, Seen(mem, op), Ok(mem, op), n);
  }

  lemma {:induction false} OpOthers(s: State, t: nat, u: nat)
    requires AtOp(s, t) && u < |s.threads| && u != t
    ensures ThreadOk(Step(s, Run(t)).mem, s.threads[u])
  {
    hide After, NextOp, Refs, Net, Acqs, Guarded, LinkRefs;
    var c, d := s.threads[t].ctl, s.threads[u].ctl;
    var op := NextOp(c);
    assert ThreadOk(s.mem, s.threads[u]);
    CasRespectsLock(c);
    if !op.Nop? && !op.ReadCnt? && Owns(d, op.f) == 1 {
      LocksSum(s.threads, t, u, op.f);
      assert LockOk(s, op.f);
    }
  }

  lemma {:induction false} OpSelf(s: State, t: nat)
    requires AtOp(s, t)
    ensures ThreadOk(Step(s, Run(t)).mem, OpThread(s, t))
  {
    hide After, NextOp, Refs, Net, Acqs, Guarded, KnowsLink, LinkRefs;
    var c := s.threads[t].ctl;
    var op := NextOp(c);
    assert ThreadOk(s.mem, s.threads[t]);
    OwnLinkKnown(s.mem, c, OpCount(s, t));
    AfterBooks(c, Seen(s.mem, op), Ok(s.mem, op), OpCount(s, t), HEAD, Fld(NIL, Succ));
    forall x: nat | x != NIL ensures Acqs(OpThread(s, t).pend, x) + Unreported(OpThread(s, t), x) <= Refs(OpThread(s, t).ctl, x) {
      AfterBooks(c, Seen(s.mem, op), Ok(s.mem, op), OpCount(s, t), x, Fld(NIL, Succ));
    }
  }

  lemma {:induction false} OpKeepsInv(s: State, t: nat)
    requires AtOp(s, t)
    ensures Inv(Step(s, Run(t)))
  {
    hide After, NextOp, Apply, Seen, Ok, ThreadOk, NodeOk, LockOk;
    var s' := Step(s, Run(t));
    ApplyLinks(s.mem, NextOp(s.threads[t].ctl), NIL);
    forall x | ValidNode(s'.mem, x) ensures NodeOk(s', x) { OpNode(s, t, x); }
    forall f: Fld | ValidNode(s'.mem, f.node) ensures LockOk(s', f) { OpLock(s, t, f); }
    forall u | 0 <= u < |s'.threads| ensures ThreadOk(s'.mem, s'.threads[u]) {
      if u == t { OpSelf(s, t); } else { OpOthers(s, t, u); }
    }
  }

  // ----- A queued operation preserves the invariant -----

  ghost predicate AtMicro(s: State, t: nat) {
    Inv(s) && t < |s.threads| && s.threads[t].pend != [] && MicroEnabled(s.mem, s.threads[t].pend[0])
  }

  function Popped(th: Thread): Thread
    requires th.pend != []
  {
    th.(pend := th.pend[1..])
  }

  lemma {:induction false} MicroNode(s: State, t: nat, x: nat)
    requires AtMicro(s, t) && ValidNode(s.mem, x)
    ensures var s' := Step(s, Run(t)); ValidNode(s'.mem, x) && NodeOk(s', x)
  {
    hide Refs, Acqs, Guarded, KnowsLink, LinkRefs, AllHeld, AllLocks, AllUnreported;
    assert NodeOk(s, x);
    AllUpdate(s.threads, t, Popped(s.threads[t]), x, Fld(NIL, Succ));
    ApplyMicroLinks(s.mem, s.threads[t].pend[0], x);
  }

  lemma {:induction false} MicroLock(s: State, t: nat, f: Fld)
    requires AtMicro(s, t) && ValidNode(s.mem, f.node)
    ensures var s' := Step(s, Run(t)); ValidNode(s'.mem, f.node) && LockOk(s', f)
  {
    hide Refs, Acqs, Guarded, KnowsLink, LinkRefs, AllHeld, AllLocks, AllUnreported;
    assert LockOk(s, f);
    AllUpdate(s.threads, t, Popped(s.threads[t]), NIL, f);
    LocksSum(s.threads, t, t, f);
  }

  lemma {:induction false} MicroThread(s: State, t: nat, u: nat)
    requires AtMicro(s, t) && u < |s.threads|
    ensures ThreadOk(Step(s, Run(t)).mem, Step(s, Run(t)).threads[u])
  {
    hide Refs, Guarded, LinkRefs, AllHeld, AllLocks, AllUnreported;
    assert ThreadOk(s.mem, s.threads[u]);
  }

  lemma {:induction false} MicroKeepsInv(s: State, t: nat)
    requires AtMicro(s, t)
    ensures Inv(Step(s, Run(t)))
  {
    hide ThreadOk, NodeOk, LockOk, ApplyMicro, MicroEnabled;
    var s' := Step(s, Run(t));
    ApplyMicroLinks(s.mem, s.threads[t].pend[0], NIL);
    forall x | ValidNode(s'.mem, x) ensures NodeOk(s', x) { MicroNode(s, t, x); }
    forall f: Fld | ValidNode(s'.mem, f.node) ensures LockOk(s', f) { MicroLock(s, t, f); }
    forall u | 0 <= u < |s'.threads| ensures ThreadOk(s'.mem, s'.threads[u]) { MicroThread(s, t, u); }
  }

  // ----- Calls and handing over references -----

  /** Replacing a thread by one with the same books preserves the invariant. */
  lemma {:induction false} SwapThread(s: State, t: nat, th: Thread)
    requires Inv(s) && t < |s.threads| && s.threads[t].pend == []
    requires forall x: nat, f: Fld :: x != NIL ==> Books(s.threads[t].ctl, th, x, f, 0, 0, 0)
    requires KnowsLink(s.mem, th.ctl)
    ensures Inv(SetThread(s, t, th))
  {
    hide Refs, Guarded, KnowsLink, LinkRefs, AllHeld, AllLocks, AllUnreported;
    var c := s.threads[t].ctl;
    var s' := SetThread(s, t, th);
    assert Books(c, th, HEAD, Fld(NIL, Succ), 0, 0, 0);
    forall x | ValidNode(s.mem, x) ensures NodeOk(s', x) {
      assert NodeOk(s, x) && Books(c, th, x, Fld(NIL, Succ), 0, 0, 0);
      AllUpdate(s.threads, t, th, x, Fld(NIL, Succ));
    }
    forall f: Fld | ValidNode(s.mem, f.node) ensures LockOk(s', f) {
      assert LockOk(s, f) && Books(c, th, HEAD, f, 0, 0, 0);
      AllUpdate(s.threads, t, th, HEAD, f);
    }
    forall x: nat | x != NIL ensures Acqs(th.pend, x) + Unreported(th, x) <= Refs(th.ctl, x) {
      assert Books(c, th, x, Fld(NIL, Succ), 0, 0, 0);
    }
  }

  lemma {:induction false} CallKeepsInv(s: State, t: nat, api: Api)
    requires Inv(s)
    ensures Inv(Step(s, Call(t, api)))
  {
    hide Inv, Books;
    if t < |s.threads| && s.threads[t].pend == [] && s.threads[t].ctl.Idle? {
      var bag := s.threads[t].ctl.bag;
      forall x: nat, f: Fld | x != NIL ensures Books(Idle(bag), Begin(api, bag), x, f, 0, 0, 0) {
        BeginBooks(api, bag, x, f);
      }
      SwapThread(s, t, Begin(api, bag));
    }
  }

  lemma {:induction false} GiveKeepsInv(s: State, t: nat, u: nat, x: nat)
    requires Inv(s)
    ensures Inv(Step(s, Give(t, u, x)))
  {
    hide LinkRefs, AllHeld, AllLocks, AllUnreported;
    var s' := Step(s, Give(t, u, x));
    if s' != s {
      var a, b := s'.threads[t], s'.threads[u];
      forall y | ValidNode(s.mem, y) ensures NodeOk(s', y) {
        assert NodeOk(s, y);
        AllUpdate(s.threads, t, a, y, Fld(NIL, Succ));
        AllUpdate(s.threads[t := a], u, b, y, Fld(NIL, Succ));
      }
      forall f: Fld | ValidNode(s.mem, f.node) ensures LockOk(s', f) {
        assert LockOk(s, f);
        AllUpdate(s.threads, t, a, NIL, f);
        AllUpdate(s.threads[t := a], u, b, NIL, f);
      }
    }
  }

  // ----- Every run -----

  lemma {:induction false} StepKeepsInv(s: State, act: Act)
    requires Inv(s)
    ensures Inv(Step(s, act))
  {
    hide Inv;
    match act
    case Run(t) =>
      if t < |s.threads| {
        if s.threads[t].pend != [] {
          if MicroEnabled(s.mem, s.threads[t].pend[0]) { MicroKeepsInv(s, t); }
        } else if ValidNode(s.mem, Target(NextOp(s.threads[t].ctl))) {
          OpKeepsInv(s, t);
        }
      }
    case Call(t, api) => CallKeepsInv(s, t, api);
    case Give(t, u, x) => GiveKeepsInv(s, t, u, x);
  }

  lemma {:induction false} NoLinks(mem: seq<Elem>, x: nat)
    requires x != NIL && forall i :: 0 <= i < |mem| ==> mem[i].succ.a == NIL && mem[i].pred.a == NIL
    ensures LinkRefs(mem, x) == 0
  {
    if mem == [] {
    } else {
      NoLinks(mem[1..], x);
    }
  }

  lemma {:induction false} NoBooks(ts: seq<Thread>, x: nat, f: Fld)
    requires forall t :: 0 <= t < |ts| ==> ts[t] == Thread([], Idle(multiset{}))
    ensures AllHeld(ts, x) == 0 && AllLocks(ts, f) == 0 && AllUnreported(ts, x) == 0
  {
    if ts == [] {
    } else {
      NoBooks(ts[1..], x, f);
    }
  }

  lemma {:induction false} InitInv(nodes: nat, threads: nat)
    ensures Inv(Init(nodes, threads))
  {
    hide LinkRefs, AllHeld, AllLocks, AllUnreported;
    var s := Init(nodes, threads);
    forall x | ValidNode(s.mem, x) ensures NodeOk(s, x) {
      NoBooks(s.threads, x, Fld(NIL, Succ));
      var blank := s.mem[HEAD := s.mem[0]];
      NoLinks(blank, x);
      LinkRefsUpdate(blank, HEAD, s.mem[HEAD], x);
      assert blank[HEAD := s.mem[HEAD]] == s.mem;
    }
    forall f: Fld | ValidNode(s.mem, f.node) ensures LockOk(s, f) { NoBooks(s.threads, NIL, f); }
  }

  /** The invariant holds after every run, of any length, with any number of nodes and threads. */
  lemma {:induction false} EveryRun(nodes: nat, threads: nat, run: seq<Act>)
    ensures Inv(Exec(Init(nodes, threads), run))
  {
    hide Inv, Step, Init;
    if run == [] {
      InitInv(nodes, threads);
    } else {
      EveryRun(nodes, threads, run[..|run| - 1]);
      StepKeepsInv(Exec(Init(nodes, threads), run[..|run| - 1]), run[|run| - 1]);
    }
  }

  // ----- What this means for the program -----

  ghost predicate Reachable(s: State) {
    exists nodes, threads, run :: s == Exec(Init(nodes, threads), run)
  }

  lemma {:induction false} ReachableStep(s: State, act: Act)
    requires Reachable(s)
    ensures Reachable(Step(s, act))
  {
    hide Step, Init;
    var nodes, threads, run :| s == Exec(Init(nodes, threads), run);
    var longer := run + [act];
    assert longer[..|longer| - 1] == run;
    assert Step(s, act) == Exec(Init(nodes, threads), longer);
  }

  lemma {:induction false} ReachableInv(s: State)
    requires Reachable(s)
    ensures Inv(s)
  {
    hide Inv, Exec, Init;
    var nodes, threads, run :| s == Exec(Init(nodes, threads), run);
    EveryRun(nodes, threads, run);
  }

  /**
   Reference conservation: a node's count is the number of links to it plus the references
   that threads hold, and no thread holds a negative number.
   */
  lemma {:induction false} ReferencesConserved(s: State, x: nat)
    requires Reachable(s) && ValidNode(s.mem, x)
    ensures s.mem[x].cnt == LinkRefs(s.mem, x) + AllHeld(s.threads, x)
    ensures forall t :: 0 <= t < |s.threads| ==> Held(s.threads[t], x) >= 0
  {
    hide Held, LinkRefs, AllHeld;
    ReachableInv(s);
    assert NodeOk(s, x);
    forall t | 0 <= t < |s.threads| ensures Held(s.threads[t], x) >= 0 {
      assert forall u :: 0 <= u < |s.threads| ==> ThreadOk(s.mem, s.threads[u]);
      HeldNatural(s.threads, t, x);
    }
  }

  /** deref_release never takes more references than the count has (the assertion of ll.c:159). */
  lemma {:induction false} ReleaseNeverUnderflows(s: State, t: nat)
    requires Reachable(s) && t < |s.threads| && s.threads[t].pend != []
    requires s.threads[t].pend[0].Rel? && ValidNode(s.mem, s.threads[t].pend[0].n)
    ensures s.mem[s.threads[t].pend[0].n].cnt >= s.threads[t].pend[0].k
  {
    hide LinkRefs, AllHeld, Refs, Net, Acqs, Guarded, KnowsLink;
    var th := s.threads[t];
    var x := th.pend[0].n;
    ReachableInv(s);
    assert NodeOk(s, x);
    assert forall u :: 0 <= u < |s.threads| ==> ThreadOk(s.mem, s.threads[u]);
    HeldNatural(s.threads, t, x);
    NetBelow(th.pend, x);
  }

  /**
   When unlink_release has seen the count of n fall to 1, no link of any node leads to n and
   no other thread holds a reference to it.
   */
  lemma {:induction false} LastReference(s: State, t: nat)
    requires Reachable(s) && t < |s.threads| && s.threads[t].pend == []
    requires s.threads[t].ctl.InRelease? && s.threads[t].ctl.rpc == RWait
    requires ValidNode(s.mem, s.threads[t].ctl.n) && s.mem[s.threads[t].ctl.n].cnt <= 1
    ensures var n := s.threads[t].ctl.n;
            && s.mem[n].cnt == 1 && Held(s.threads[t], n) == 1
            && (forall m :: 0 <= m < |s.mem| ==> s.mem[m].succ.a != n && s.mem[m].pred.a != n)
            && (forall u :: 0 <= u < |s.threads| && u != t ==> Held(s.threads[u], n) == 0)
  {
    hide AllHeld, Acqs, KnowsLink;
    var n := s.threads[t].ctl.n;
    ReachableInv(s);
    assert NodeOk(s, n);
    assert forall u :: 0 <= u < |s.threads| ==> ThreadOk(s.mem, s.threads[u]);
    HeldNatural(s.threads, t, n);
    forall m | 0 <= m < |s.mem| ensures s.mem[m].succ.a != n && s.mem[m].pred.a != n { LinkCounted(s.mem, m, n); }
    forall u | 0 <= u < |s.threads| && u != t ensures Held(s.threads[u], n) == 0 {
      forall v | 0 <= v < |s.threads| ensures Held(s.threads[v], n) >= 0 { HeldNatural(s.threads, v, n); }
      HeldSum(s.threads, t, n);
    }
  }

  lemma {:induction false} LinkCounted(mem: seq<Elem>, m: nat, x: nat)
    requires m < |mem|
    ensures One(mem[m].succ.a, x) + One(mem[m].pred.a, x) <= LinkRefs(mem, x)
  {
    if m == 0 {
    } else {
      LinkCounted(mem[1..], m - 1, x);
    }
  }

  /** The DEREF bit of a link is set exactly when one thread, and no other, owns it. */
  lemma {:induction false} LockHasOneOwner(s: State, f: Fld)
    requires Reachable(s) && ValidNode(s.mem, f.node)
    ensures Get(s.mem, f).de <==> exists t :: 0 <= t < |s.threads| && Locks(s.threads[t], f) == 1
    ensures forall t, u | 0 <= t < |s.threads| && 0 <= u < |s.threads| ::
              Locks(s.threads[t], f) > 0 && Locks(s.threads[u], f) > 0 ==> t == u
    ensures forall t :: 0 <= t < |s.threads| ==> Locks(s.threads[t], f) <= 1
  {
    hide Locks;
    ReachableInv(s);
    assert LockOk(s, f);
    forall t, u | 0 <= t < |s.threads| && 0 <= u < |s.threads|
      ensures Locks(s.threads[t], f) + (if t == u then 0 else Locks(s.threads[u], f)) <= 1
    {
      LocksSum(s.threads, t, u, f);
    }
    if Get(s.mem, f).de {
      var t := SomeOwner(s.threads, f);
      LocksSum(s.threads, t, t, f);
    } else {
      forall t | 0 <= t < |s.threads| ensures Locks(s.threads[t], f) == 0 { LocksSum(s.threads, t, t, f); }
    }
  }

  lemma {:induction false} SomeOwner(ts: seq<Thread>, f: Fld) returns (t: nat)
    requires AllLocks(ts, f) > 0
    ensures t < |ts| && Locks(ts[t], f) > 0
  {
    hide Locks;
    if Locks(ts[0], f) > 0 { t := 0; } else { var u := SomeOwner(ts[1..], f); t := u + 1; }
  }

  /** The next operation of the thread clears the DEREF bit of f. */
  predicate ClearsLock(th: Thread, f: Fld) {
    if th.pend != [] then th.pend[0] == Unlock(f) else NextOp(th.ctl).Xchg? && NextOp(th.ctl).f == f
  }

  /** A lock is released only by its owner: the bit is set when it is cleared (ll.c:181, 251, 544). */
  lemma {:induction false} OnlyOwnerUnlocks(s: State, act: Act, f: Fld)
    requires Reachable(s) && ValidNode(s.mem, f.node)
    requires act.Run? && act.t < |s.threads|
    requires ClearsLock(s.threads[act.t], f)
    ensures Get(s.mem, f).de && Locks(s.threads[act.t], f) == 1
    ensures forall u :: 0 <= u < |s.threads| && u != act.t ==> Locks(s.threads[u], f) == 0
  {
    hide NextOp, AllLocks;
    LockHasOneOwner(s, f);
    CasRespectsLock(s.threads[act.t].ctl);
  }

  /** No other step clears a DEREF bit. */
  lemma {:induction false} OtherStepsKeepLock(s: State, act: Act, f: Fld)
    requires Reachable(s) && ValidNode(s.mem, f.node) && Get(s.mem, f).de
    requires ValidNode(Step(s, act).mem, f.node) && !Get(Step(s, act).mem, f).de
    ensures act.Run? && act.t < |s.threads| && ClearsLock(s.threads[act.t], f)
  {
    hide NextOp, After, Begin;
    if act.Run? && act.t < |s.threads| { CasRespectsLock(s.threads[act.t].ctl); }
  }

  /** An insert that has to back out finds its own node in the link it restores (ll.c:543). */
  lemma {:induction false} UndoFindsOwnNode(s: State, t: nat)
    requires Reachable(s) && t < |s.threads| && s.threads[t].ctl.InInsert? && s.threads[t].ctl.ipc.BUndo?
    ensures var c := s.threads[t].ctl;
            var p := InsertPred(c.i, c.ipc.x, c.ipc.y);
            ValidNode(s.mem, p) && s.mem[p].succ.a == c.i.n && s.mem[p].succ.de
  {
    hide AllHeld, Acqs, Refs, Guarded, LinkRefs, Net;
    ReachableInv(s);
    var c := s.threads[t].ctl;
    assert ThreadOk(s.mem, s.threads[t]);
    LockHasOneOwner(s, Fld(InsertPred(c.i, c.ipc.x, c.ipc.y), Succ));
  }

  /** The deletion mark is set while the direct predecessor's link to the node is locked (ll.c:685-708). */
  lemma {:induction false} MarkedAtDirectPredecessor(s: State, t: nat)
    requires Reachable(s) && t < |s.threads| && s.threads[t].pend == [] && IsMark(s.threads[t].ctl)
    requires ValidNode(s.mem, s.threads[t].ctl.n) && Ok(s.mem, NextOp(s.threads[t].ctl))
    ensures var n := s.threads[t].ctl.n;
            var p := s.threads[t].ctl.upc.p;
            var mem' := Step(s, Run(t)).mem;
            && ValidNode(mem', p) && ValidNode(mem', n)
            && mem'[p].succ.a == n && mem'[p].succ.de
            && !s.mem[n].pred.fl && mem'[n].pred == Ptr(p, true, false)
  {
    hide AllHeld, Acqs, Refs, Guarded, LinkRefs, Net, After;
    ReachableInv(s);
    var c := s.threads[t].ctl;
    assert ThreadOk(s.mem, s.threads[t]);
    LockHasOneOwner(s, Fld(c.upc.p, Succ));
    OnlyUnlinkMarks(c);
  }

  /** Between two clearings of its mark a node is marked at most once, and only marks are reported as successes. */
  lemma {:induction false} MarkedOncePerRelease(s: State, n: nat)
    requires Reachable(s) && ValidNode(s.mem, n)
    ensures s.mem[n].clears <= s.mem[n].marks <= s.mem[n].clears + 1
    ensures s.mem[n].pred.fl <==> s.mem[n].marks == s.mem[n].clears + 1
    ensures s.mem[n].rets <= s.mem[n].marks
  {
    ReachableInv(s);
    assert NodeOk(s, n);
  }

  /** The mark is cleared by nothing but the release of the node. */
  lemma {:induction false} OnlyReleaseClearsMark(s: State, act: Act, n: nat)
    requires ValidNode(s.mem, n) && ValidNode(Step(s, act).mem, n)
    requires s.mem[n].pred.fl && !Step(s, act).mem[n].pred.fl
    ensures act.Run? && act.t < |s.threads|
    ensures var th := s.threads[act.t]; th.pend != [] && th.pend[0] == Unflag(Fld(n, Pred))
  {
    hide NextOp, After, Begin;
    if act.Run? && act.t < |s.threads| { OnlyUnlinkMarks(s.threads[act.t].ctl); }
  }
}
