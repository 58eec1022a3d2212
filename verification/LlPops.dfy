/**
 ll_pop_front and ll_pop_back in every interleaving: they go on in their own direction when another thread is faster,
 and end with a node they unlinked themselves, or with none once they came to the head.
 */
module LlPops {
  import opened Options
  import opened LlTypes
  import opened LlMachine

  /** The arguments of a pop and the references its caller keeps. */
  datatype Pop = Pop(front: bool, wait: bool, bag: multiset<nat>)

  /** Who waits for the result of pred() when succ() is called on its behalf. */
  function Bottom(k: PtrK): PtrK { if k.KPred? then Bottom(k.k) else k }

  function PopB(k: BoolK): Option<Pop> { if k.KPopped? then Some(Pop(k.front, k.wait, k.bag)) else None }

  /** The pop that a thread is in. */
  function PopP(k: PtrK): Option<Pop> {
    match k
    case KPop(front, wait, bag) => Some(Pop(front, wait, bag))
    case KPopNext(front, wait, _, bag) => Some(Pop(front, wait, bag))
    case KUnlink(_, _, uk) => PopB(uk)
    case _ => None
  }

  function PopOf(c: Ctl): Option<Pop> {
    match c
    case InSucc(_, _, k) => PopP(Bottom(k))
    case InPred(_, _, k) => PopP(Bottom(k))
    case InUnlink(_, _, uk) => PopB(uk)
    case _ => None
  }

  /** A lookup for a pop starts at the head, or at the node that another thread unlinked first. */
  predicate StartsAt(k: PtrK, n: nat) { (k.KPop? ==> n == HEAD) && (k.KPopNext? ==> n == k.m) }

  predicate IsPop(k: PtrK) { k.KPop? || k.KPopNext? }

  predicate Fair(k: PtrK) { k.KUnlink? && k.uk.KPopped? ==> k.uk.n == k.n }

  /** ll_pop_front looks up successors, ll_pop_back predecessors, and what they unlink is what they found. */
  predicate Directed(c: Ctl) {
    match c
    case InSucc(n, _, k) =>
      && Fair(k) && (IsPop(k) ==> k.front && StartsAt(k, n))
      && (k.KPred? ==> !k.k.KPred? && Fair(k.k) && (IsPop(k.k) ==> !k.k.front && StartsAt(k.k, k.n)))
    case InPred(n, _, k) => !k.KPred? && Fair(k) && (IsPop(k) ==> !k.front && StartsAt(k, n))
    case InUnlink(n, _, uk) => uk.KPopped? ==> uk.n == n
    case _ => true
  }

  /** The node that the thread unlinked, and reports. */
  predicate Took(p: Pop, n: nat, th: Thread) {
    th.ctl == (if p.wait then InRelease(n, false, RWait, KDone(p.bag)) else Idle(p.bag + multiset{n})) && Returned(n) in th.pend
  }

  /** The lookup came to the head. */
  predicate AtHead(c: Ctl) {
    match c
    case InSucc(_, STest(s), KPop(front, _, _)) => front && s.a == HEAD
    case InPred(_, PLast(p), KPop(front, _, _)) => !front && p.a == HEAD
    case _ => false
  }

  /** How a pop may go on: it continues, came to the head and ends with nothing, or ends with the node it unlinked. */
  ghost predicate PopGoesOn(c: Ctl, p: Pop, th: Thread) {
    || PopOf(th.ctl) == Some(p)
    || (AtHead(c) && th.ctl == Idle(p.bag))
    || exists n :: Took(p, n, th)
  }

  lemma FinishTakes(n: nat, i: nat, uk: BoolK, q: seq<Micro>, p: Pop)
    requires PopB(uk) == Some(p) && uk.n == n
    ensures Took(p, n, UnlinkFinish(n, i, uk, q))
  {
    assert Then(Then(q, Rel(i, 1)), Returned(n))[|Then(q, Rel(i, 1))|] == Returned(n);
  }

  lemma GotGoesOn(c: Ctl, n: nat, at: UnlinkAt, uk: BoolK, v: Tag, q: seq<Micro>, p: Pop)
    requires PopB(uk) == Some(p) && uk.n == n
    ensures PopGoesOn(c, p, UnlinkGot(n, at, uk, v, q)) && Directed(UnlinkGot(n, at, uk, v, q).ctl)
  {
    hide Then, Nothing;
    if at.APredI? && at.i == HEAD { FinishTakes(n, at.i, uk, Then(q, Rel(v.a, 1)), p); }
  }

  lemma ReturnGoesOn(c: Ctl, k: PtrK, v: Tag, q: seq<Micro>, p: Pop)
    requires PopP(Bottom(k)) == Some(p) && Directed(c) && (k.KPop? && v.a == HEAD ==> AtHead(c))
    requires Fair(k) && (k.KPred? ==> !k.k.KPred? && Fair(k.k) && (IsPop(k.k) ==> !k.k.front && StartsAt(k.k, k.n)))
    ensures PopGoesOn(c, p, RetPtr(k, v, q)) && Directed(RetPtr(k, v, q).ctl)
  {
    hide Then, Nothing, UnlinkGot, Took;
    if k.KUnlink? { GotGoesOn(c, k.n, k.uat, k.uk, v, q, p); }
  }

  lemma SuccGoesOn(c: Ctl, v: Ptr, ok: bool, cnt: int, p: Pop)
    requires c.InSucc? && Directed(c) && PopOf(c) == Some(p)
    ensures var th := After(c, v, ok, cnt); PopGoesOn(c, p, th) && Directed(th.ctl)
  {
    hide Then, Nothing, RetPtr, Took;
    if c.spc.SStart? && ok && v.a == NIL {
      ReturnGoesOn(c, c.k, Strip(v), LlMachine.Deref(Fld(c.n, Succ), v), p);
    } else if c.spc.STest? && !v.fl {
      ReturnGoesOn(c, c.k, c.spc.s, Nothing(), p);
    }
  }

  lemma PredGoesOn(c: Ctl, v: Ptr, ok: bool, cnt: int, p: Pop)
    requires c.InPred? && Directed(c) && PopOf(c) == Some(p)
    ensures var th := After(c, v, ok, cnt); PopGoesOn(c, p, th) && Directed(th.ctl)
  {
    hide Then, Nothing, RetPtr, Took;
    if c.ppc.PStart? && ok && v.a == NIL {
      ReturnGoesOn(c, c.k, Strip(v), LlMachine.Deref(Fld(c.n, Pred), v), p);
    } else if c.ppc.PLast? {
      ReturnGoesOn(c, c.k, Tag(c.ppc.p.a, v.fl), Nothing(), p);
    }
  }

  lemma UnlinkGoesOn(c: Ctl, v: Ptr, ok: bool, cnt: int, p: Pop)
    requires c.InUnlink? && Directed(c) && PopOf(c) == Some(p)
    ensures var th := After(c, v, ok, cnt); PopGoesOn(c, p, th) && Directed(th.ctl)
  {
    hide Then, Nothing, Took;
    if c.upc.ULoop? && cnt <= 1 {
      FinishTakes(c.n, c.upc.i, c.uk, Nothing(), p);
    } else if c.upc.UPeek? && v.a != c.n && c.upc.i == HEAD {
      FinishTakes(c.n, c.upc.i, c.uk, Nothing(), p);
    }
  }

  /** Every operation of a thread inside a pop, whatever it sees. */
  lemma PopStep(c: Ctl, v: Ptr, ok: bool, cnt: int, p: Pop)
    requires Directed(c) && PopOf(c) == Some(p)
    ensures var th := After(c, v, ok, cnt); PopGoesOn(c, p, th) && Directed(th.ctl)
  {
    hide After, PopGoesOn;
    if c.InSucc? { SuccGoesOn(c, v, ok, cnt, p); }
    else if c.InPred? { PredGoesOn(c, v, ok, cnt, p); }
    else { UnlinkGoesOn(c, v, ok, cnt, p); }
  }

  /** A pop begins at the head in its own direction. */
  lemma PopBegins(front: bool, wait: bool, bag: multiset<nat>)
    ensures var th := Begin(LlPop(front, wait), bag); PopOf(th.ctl) == Some(Pop(front, wait, bag)) && Directed(th.ctl)
  {
    hide Nothing;
  }

  ghost predicate AllDirected(s: State) { forall t :: 0 <= t < |s.threads| ==> Directed(s.threads[t].ctl) }

  lemma OtherReturns(k: PtrK, v: Tag, q: seq<Micro>)
    requires PopP(Bottom(k)) == None && (k.KPred? ==> !k.k.KPred?)
    ensures Directed(RetPtr(k, v, q).ctl)
  {
    hide Then, Nothing;
  }

  lemma OtherLookup(c: Ctl, v: Ptr, ok: bool, cnt: int)
    requires (c.InSucc? || c.InPred?) && Directed(c) && PopOf(c) == None
    ensures Directed(After(c, v, ok, cnt).ctl)
  {
    hide Then, Nothing, RetPtr;
    OtherReturns(c.k, Strip(v), LlMachine.Deref(Fld(c.n, if c.InSucc? then Succ else Pred), v));
    if c.InSucc? && c.spc.STest? { OtherReturns(c.k, c.spc.s, Nothing()); }
    if c.InPred? && c.ppc.PLast? { OtherReturns(c.k, Tag(c.ppc.p.a, v.fl), Nothing()); }
  }

  lemma OtherStep(c: Ctl, v: Ptr, ok: bool, cnt: int)
    requires Directed(c) && PopOf(c) == None
    ensures Directed(After(c, v, ok, cnt).ctl)
  {
    hide Then, Nothing, AfterSucc, AfterPred;
    if c.InSucc? || c.InPred? { OtherLookup(c, v, ok, cnt); }
  }

  lemma OtherBegins(api: Api, bag: multiset<nat>)
    ensures Directed(Begin(api, bag).ctl)
  {
    hide Then, Nothing;
  }

  lemma StepKeepsDirected(s: State, act: Act)
    requires AllDirected(s)
    ensures AllDirected(Step(s, act))
  {
    hide After, Begin, Directed, NextOp, Seen, Ok, Apply, ApplyMicro, PopGoesOn;
    match act
    case Run(t) =>
      if t < |s.threads| && s.threads[t].pend == [] {
        var c := s.threads[t].ctl;
        var op := NextOp(c);
        if ValidNode(s.mem, Target(op)) {
          var cnt := if op.ReadCnt? then s.mem[op.n].cnt else 0;
          if PopOf(c) == None { OtherStep(c, Seen(s.mem, op), Ok(s.mem, op), cnt); }
          else { PopStep(c, Seen(s.mem, op), Ok(s.mem, op), cnt, PopOf(c).value); }
        }
      }
    case Call(t, api) => if t < |s.threads| && s.threads[t].ctl.Idle? { OtherBegins(api, s.threads[t].ctl.bag); }
    case Give(t, u, x) => GiveDirected(s, t, u, x);
  }

  lemma GiveDirected(s: State, t: nat, u: nat, x: nat)
    requires AllDirected(s)
    ensures AllDirected(Step(s, Give(t, u, x)))
  {
    hide After, Begin;
  }

  /** After every run every thread inside a pop goes on as PopStep tells. */
  lemma {:induction false} EveryRunDirected(nodes: nat, threads: nat, run: seq<Act>)
    ensures AllDirected(Exec(Init(nodes, threads), run))
  {
    hide Step;
    if run == [] {
    } else {
      EveryRunDirected(nodes, threads, run[..|run| - 1]);
      StepKeepsDirected(Exec(Init(nodes, threads), run[..|run| - 1]), run[|run| - 1]);
    }
  }
}
