/**
 The head of the list in interleaved runs: it is never marked as deleted, because no thread ever holds it as an
 element that it could unlink or release.
 */
module LlHead {
  import opened LlTypes
  import opened LlMachine
  import opened LlLedger
  import opened LlSafety
  import opened LlRelease

  // ----- No control point works on the head as an element -----

  predicate HeadFreeB(k: BoolK) { k.n != HEAD && HEAD !in k.bag }

  predicate HeadFreeP(k: PtrK) {
    match k
    case KPred(_, _, k') => HeadFreeP(k')
    case KUnlink(n, _, k') => n != HEAD && HeadFreeB(k')
    case KInsert(i, _) => HEAD !in i.bag
    case KApi(bag) => HEAD !in bag
    case KPop(_, _, bag) => HEAD !in bag
    case KPopNext(_, _, _, bag) => HEAD !in bag
  }

  predicate HeadFreeR(k: ReleaseK) { if k.KReinsert? then HEAD !in k.i.bag else HEAD !in k.bag }

  /** What the thread unlinks or releases, and what its caller holds, is not the head. */
  predicate HeadFree(c: Ctl) {
    match c
    case Idle(bag) => HEAD !in bag
    case InSucc(_, _, k) => HeadFreeP(k)
    case InPred(_, _, k) => HeadFreeP(k)
    case InUnlink(n, _, k) => n != HEAD && HeadFreeB(k)
    case InRelease(n, _, _, k) => n != HEAD && HeadFreeR(k)
    case InInsert(i, _) => HEAD !in i.bag
    case InRobust(n, bag, _) => n != HEAD && HEAD !in bag
  }

  lemma {:induction false} RetBoolHeadFree(k: BoolK, b: bool, q: seq<Micro>)
    requires HeadFreeB(k)
    ensures HeadFree(RetBool(k, b, q).ctl)
  {
  }

  lemma {:induction false} UnlinkGotHeadFree(n: nat, at: UnlinkAt, k: BoolK, v: Tag, q: seq<Micro>)
    requires n != HEAD && HeadFreeB(k)
    ensures HeadFree(UnlinkGot(n, at, k, v, q).ctl)
  {
    hide RetBool, Then, HeadFreeB;
    match at
    case APred =>
      RetBoolHeadFree(k, false, q);
      RetBoolHeadFree(k, false, Then(q, Rel(v.a, 1)));
    case APredI(i) => RetBoolHeadFree(k, true, Then(Then(Then(q, Rel(v.a, 1)), Rel(i, 1)), Returned(n)));
    case _ =>
  }

  lemma {:induction false} RetPtrHeadFree(k: PtrK, v: Tag, q: seq<Micro>)
    requires HeadFreeP(k)
    ensures HeadFree(RetPtr(k, v, q).ctl)
  {
    hide UnlinkGot, Then;
    match k
    case KUnlink(n, at, k') => UnlinkGotHeadFree(n, at, k', v, q);
    case _ =>
  }

  lemma {:induction false} WalkHeadFree(c: Ctl, v: Ptr, ok: bool)
    requires HeadFree(c) && (c.InSucc? || c.InPred?)
    ensures HeadFree(After(c, v, ok, 0).ctl)
  {
    hide RetPtr, Then, Nothing;
    match c
    case InSucc(n, SStart, k) => RetPtrHeadFree(k, Strip(v), Deref(Fld(n, Succ), v));
    case InSucc(_, STest(s), k) => RetPtrHeadFree(k, s, Nothing());
    case InPred(n, PStart, k) => RetPtrHeadFree(k, Strip(v), Deref(Fld(n, Pred), v));
    case InPred(_, PLast(p), k) => RetPtrHeadFree(k, Tag(p.a, v.fl), Nothing());
    case _ =>
  }

  lemma {:induction false} UnlinkHeadFree(c: Ctl, v: Ptr, ok: bool, n: int)
    requires HeadFree(c) && c.InUnlink?
    ensures HeadFree(After(c, v, ok, n).ctl)
  {
    hide RetBool, Then, Nothing;
    match c.upc
    case UStart => RetBoolHeadFree(c.uk, false, Nothing());
    case UMark(p) => RetBoolHeadFree(c.uk, false, Then(Then(Nothing(), Unlock(Fld(p, Succ))), Rel(p, 1)));
    case ULoop(i) => RetBoolHeadFree(c.uk, true, Then(Then(Nothing(), Rel(i, 1)), Returned(c.n)));
    case UPeek(i) => RetBoolHeadFree(c.uk, true, Then(Then(Nothing(), Rel(i, 1)), Returned(c.n)));
    case _ =>
  }

  lemma {:induction false} ReleaseHeadFree(c: Ctl, v: Ptr, ok: bool, n: int)
    requires HeadFree(c) && c.InRelease?
    ensures HeadFree(After(c, v, ok, n).ctl)
  {
    hide Then, Nothing;
  }

  lemma {:induction false} InsertHeadFree(c: Ctl, v: Ptr, ok: bool)
    requires HeadFree(c) && c.InInsert?
    ensures HeadFree(After(c, v, ok, 0).ctl)
  {
    hide Then, Nothing;
  }

  lemma {:induction false} HeadFreeAfter(c: Ctl, v: Ptr, ok: bool, n: int)
    requires HeadFree(c)
    ensures HeadFree(After(c, v, ok, n).ctl)
  {
    hide AfterSucc, AfterPred, AfterUnlink, AfterRelease, AfterInsert, Then, Nothing;
    match c
    case InSucc(_, _, _) => WalkHeadFree(c, v, ok);
    case InPred(_, _, _) => WalkHeadFree(c, v, ok);
    case InUnlink(_, _, _) => UnlinkHeadFree(c, v, ok, n);
    case InRelease(_, _, _, _) => ReleaseHeadFree(c, v, ok, n);
    case InInsert(_, _) => InsertHeadFree(c, v, ok);
    case _ =>
  }

  lemma {:induction false} HeadFreeBegin(api: Api, bag: multiset<nat>)
    requires HEAD !in bag
    ensures HeadFree(Begin(api, bag).ctl)
  {
    hide Then, Nothing;
  }

  // ----- The invariant of all runs -----

  ghost predicate HeadOk(s: State) {
    ValidNode(s.mem, HEAD) && !s.mem[HEAD].pred.fl && forall t :: 0 <= t < |s.threads| ==> HeadFree(s.threads[t].ctl)
  }

  lemma {:induction false} StepKeepsHead(s: State, act: Act)
    requires Inv(s) && HeadOk(s)
    ensures HeadOk(Step(s, act))
  {
    hide Inv, After, NextOp, Begin, HeadFree;
    match act
    case Run(t) =>
      if t < |s.threads| {
        var c := s.threads[t].ctl;
        if s.threads[t].pend != [] {
        } else if ValidNode(s.mem, Target(NextOp(c))) {
          var op := NextOp(c);
          FlagAfterOp(s, t, HEAD);
          HeadFreeAfter(c, Seen(s.mem, op), Ok(s.mem, op), if op.ReadCnt? then s.mem[op.n].cnt else 0);
          HeadNotMarked(c);
        }
      }
    case Call(t, api) =>
      if t < |s.threads| && s.threads[t].ctl.Idle? {
        IdleHeadFree(s.threads[t].ctl);
        HeadFreeBegin(api, s.threads[t].ctl.bag);
      }
    case Give(t, u, x) =>
      if t < |s.threads| && u < |s.threads| && s.threads[t].ctl.Idle? && s.threads[u].ctl.Idle? && x in s.threads[t].ctl.bag {
        GivenHeadFree(s.threads[t].ctl.bag, s.threads[u].ctl.bag, x);
      }
  }

  lemma HeadNotMarked(c: Ctl)
    requires HeadFree(c)
    ensures IsMark(c) ==> c.n != HEAD
  {
  }

  lemma IdleHeadFree(c: Ctl)
    requires HeadFree(c) && c.Idle?
    ensures HEAD !in c.bag
  {
  }

  lemma GivenHeadFree(a: multiset<nat>, b: multiset<nat>, x: nat)
    requires x in a && HeadFree(Idle(a)) && HeadFree(Idle(b))
    ensures HeadFree(Idle(a - multiset{x})) && HeadFree(Idle(b + multiset{x}))
  {
  }

  lemma {:induction false} HeadInEveryRun(nodes: nat, threads: nat, run: seq<Act>)
    ensures HeadOk(Exec(Init(nodes, threads), run))
  {
    hide Step, Inv;
    if run == [] {
    } else {
      var front := run[..|run| - 1];
      HeadInEveryRun(nodes, threads, front);
      EveryRun(nodes, threads, front);
      StepKeepsHead(Exec(Init(nodes, threads), front), run[|run| - 1]);
    }
  }

  /** In every reachable state the head is not deleted, and it never was. */
  lemma {:induction false} HeadNeverDeleted(s: State)
    requires Reachable(s)
    ensures ValidNode(s.mem, HEAD) && !s.mem[HEAD].pred.fl
    ensures forall t :: 0 <= t < |s.threads| && s.threads[t].ctl.Idle? ==> HEAD !in s.threads[t].ctl.bag
  {
    hide Exec, Init;
    var nodes, threads, run :| s == Exec(Init(nodes, threads), run);
    HeadInEveryRun(nodes, threads, run);
    forall t | 0 <= t < |s.threads| && s.threads[t].ctl.Idle? ensures HEAD !in s.threads[t].ctl.bag {
      IdleHeadFree(s.threads[t].ctl);
    }
  }
}
