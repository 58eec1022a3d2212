/**
 The life of a node between its insertion and its release: at most one llll_unlink succeeds, provided
 that callers release only what an unlink that did not wait has returned to them.
 */
module LlRelease {
  import opened LlTypes
  import opened LlMachine
  import opened LlLedger
  import opened LlSafety

  // ----- A node that is unlinked or released is in the hands of one thread -----

  function Releasing(c: Ctl, x: nat): nat { if c.InRelease? then One(c.n, x) else 0 }

  /** Unlinks of x that a control point has marked and not finished, and releases of x it is inside. */
  function TokenC(c: Ctl, x: nat): nat { Marked(c, x) + Releasing(c, x) }

  /** ... and releases whose deletion mark is about to be cleared. */
  function Token(th: Thread, x: nat): nat { TokenC(th.ctl, x) + Unflags(th.pend, Fld(x, Pred)) }

  function AllTokens(ts: seq<Thread>, x: nat): nat {
    if ts == [] then 0 else Token(ts[0], x) + AllTokens(ts[1..], x)
  }

  lemma {:induction false} TokensUpdate(ts: seq<Thread>, t: nat, th: Thread, x: nat)
    requires t < |ts|
    ensures AllTokens(ts[t := th], x) == AllTokens(ts, x) - Token(ts[t], x) + Token(th, x)
    ensures Token(ts[t], x) <= AllTokens(ts, x)
  {
    hide Token;
    if t == 0 {
      assert ts[t := th][1..] == ts[1..];
    } else {
      assert ts[t := th][1..] == ts[1..][t - 1 := th];
      TokensUpdate(ts[1..], t - 1, th, x);
    }
  }

  /** Successful unlinks of x that a thread returns to its caller to be released later. */
  function Handed(th: Thread, x: nat): nat { if th.ctl.Idle? then Returneds(th.pend, x) else 0 }

  // ----- Setting the deletion mark makes a token; it ends when the mark is cleared or the node is handed to the caller -----

  lemma {:induction false} RetBoolToken(k: BoolK, b: bool, q: seq<Micro>, x: nat)
    requires Returneds(q, x) == if b then One(k.n, x) else 0
    ensures var th := RetBool(k, b, q); Token(th, x) + Handed(th, x) == (if b then One(k.n, x) else 0) + Unflags(q, Fld(x, Pred))
  {
    hide Then, Nothing, Unflags, Returneds;
  }

  lemma {:induction false} UnlinkGotToken(n: nat, at: UnlinkAt, k: BoolK, v: Tag, q: seq<Micro>, x: nat)
    requires n == k.n && Returneds(q, x) == 0
    ensures var th := UnlinkGot(n, at, k, v, q);
            Token(th, x) + Handed(th, x) == MarkedP(KUnlink(n, at, k), x) + Unflags(q, Fld(x, Pred))
  {
    hide Then, Nothing, Unflags, Returneds, RetBool;
    match at
    case APred =>
      RetBoolToken(k, false, q, x);
      RetBoolToken(k, false, Then(q, Rel(v.a, 1)), x);
    case APredI(i) =>
      RetBoolToken(k, true, Then(Then(Then(q, Rel(v.a, 1)), Rel(i, 1)), Returned(n)), x);
    case _ =>
  }

  lemma {:induction false} RetPtrToken(k: PtrK, v: Tag, q: seq<Micro>, x: nat)
    requires GuardedP(k) && Returneds(q, x) == 0
    ensures var th := RetPtr(k, v, q); Token(th, x) + Handed(th, x) == MarkedP(k, x) + Unflags(q, Fld(x, Pred))
  {
    hide Then, Nothing, Unflags, Returneds, UnlinkGot;
    match k
    case KUnlink(n, at, k') => UnlinkGotToken(n, at, k', v, q, x);
    case _ =>
  }

  lemma {:induction false} SuccToken(c: Ctl, v: Ptr, ok: bool, x: nat)
    requires c.InSucc? && Guarded(c)
    ensures var th := AfterSucc(c.n, c.spc, c.k, v, ok); Token(th, x) + Handed(th, x) == TokenC(c, x)
  {
    hide Then, Nothing, Unflags, Returneds, RetPtr;
    match c.spc
    case SStart => RetPtrToken(c.k, Strip(v), Deref(Fld(c.n, Succ), v), x);
    case STest(s) => RetPtrToken(c.k, s, Nothing(), x);
    case _ =>
  }

  lemma {:induction false} PredToken(c: Ctl, v: Ptr, ok: bool, x: nat)
    requires c.InPred? && Guarded(c)
    ensures var th := AfterPred(c.n, c.ppc, c.k, v, ok); Token(th, x) + Handed(th, x) == TokenC(c, x)
  {
    hide Then, Nothing, Unflags, Returneds, RetPtr;
    match c.ppc
    case PStart => RetPtrToken(c.k, Strip(v), Deref(Fld(c.n, Pred), v), x);
    case PLast(p) => RetPtrToken(c.k, Tag(p.a, v.fl), Nothing(), x);
    case _ =>
  }

  lemma {:induction false} UnlinkToken(c: Ctl, v: Ptr, ok: bool, n: int, x: nat)
    requires c.InUnlink? && Guarded(c)
    ensures var th := AfterUnlink(c.n, c.upc, c.uk, v, ok, n);
            Token(th, x) + Handed(th, x) == TokenC(c, x) + MovedMarks(c, ok, x)
  {
    hide Then, Nothing, Unflags, Returneds, RetBool;
    match c.upc
    case UStart => RetBoolToken(c.uk, false, Nothing(), x);
    case UMark(p) => RetBoolToken(c.uk, false, Then(Then(Nothing(), Unlock(Fld(p, Succ))), Rel(p, 1)), x);
    case ULoop(i) => RetBoolToken(c.uk, true, Then(Then(Nothing(), Rel(i, 1)), Returned(c.n)), x);
    case UPeek(i) => RetBoolToken(c.uk, true, Then(Then(Nothing(), Rel(i, 1)), Returned(c.n)), x);
    case _ =>
  }

  lemma {:induction false} ReleaseToken(c: Ctl, v: Ptr, ok: bool, n: int, x: nat)
    requires c.InRelease?
    ensures var th := AfterRelease(c.n, c.ins, c.rpc, c.rk, v, ok, n); Token(th, x) + Handed(th, x) == TokenC(c, x)
  {
    hide Then, Nothing, Unflags, Returneds;
  }

  lemma {:induction false} InsertToken(c: Ctl, v: Ptr, ok: bool, x: nat)
    requires c.InInsert?
    ensures var th := AfterInsert(c.i, c.ipc, v, ok); Token(th, x) == 0 && Handed(th, x) == 0
  {
    hide Then, Nothing, Unflags, Returneds;
  }

  lemma {:induction false} RobustToken(c: Ctl, v: Ptr, ok: bool, x: nat)
    requires c.InRobust?
    ensures var th := AfterRobust(c.n, c.bag, c.xpc, v, ok); Token(th, x) == 0 && Handed(th, x) == 0
  {
    hide Then, Nothing, Unflags, Returneds;
  }

  lemma {:induction false} TokenAfter(c: Ctl, v: Ptr, ok: bool, n: int, x: nat)
    requires Guarded(c)
    ensures var th := After(c, v, ok, n); Token(th, x) + Handed(th, x) == TokenC(c, x) + MovedMarks(c, ok, x)
  {
    hide AfterSucc, AfterPred, AfterUnlink, AfterRelease, AfterInsert, AfterRobust, Unflags, Returneds;
    match c
    case InSucc(_, _, _) => SuccToken(c, v, ok, x);
    case InPred(_, _, _) => PredToken(c, v, ok, x);
    case InUnlink(_, _, _) => UnlinkToken(c, v, ok, n, x);
    case InRelease(_, _, _, _) => ReleaseToken(c, v, ok, n, x);
    case InInsert(_, _) => InsertToken(c, v, ok, x);
    case InRobust(_, _, _) => RobustToken(c, v, ok, x);
    case _ =>
  }

  /** The release of x has seen the last other reference go. */
  predicate Past(th: Thread, x: nat) {
    (th.ctl.InRelease? && th.ctl.n == x && th.ctl.rpc != RWait) || Unflags(th.pend, Fld(x, Pred)) >= 1
  }

  lemma {:induction false} RetPtrNotPast(k: PtrK, v: Tag, q: seq<Micro>, x: nat)
    requires Unflags(q, Fld(x, Pred)) == 0
    ensures !Past(RetPtr(k, v, q), x)
  {
    hide Then, Nothing, Unflags;
  }

  lemma {:induction false} SuccNotPast(c: Ctl, v: Ptr, ok: bool, x: nat)
    requires c.InSucc?
    ensures !Past(AfterSucc(c.n, c.spc, c.k, v, ok), x)
  {
    hide Then, Nothing, Unflags, RetPtr;
    match c.spc
    case SStart => RetPtrNotPast(c.k, Strip(v), Deref(Fld(c.n, Succ), v), x);
    case STest(s) => RetPtrNotPast(c.k, s, Nothing(), x);
    case _ =>
  }

  lemma {:induction false} PredNotPast(c: Ctl, v: Ptr, ok: bool, x: nat)
    requires c.InPred?
    ensures !Past(AfterPred(c.n, c.ppc, c.k, v, ok), x)
  {
    hide Then, Nothing, Unflags, RetPtr;
    match c.ppc
    case PStart => RetPtrNotPast(c.k, Strip(v), Deref(Fld(c.n, Pred), v), x);
    case PLast(p) => RetPtrNotPast(c.k, Tag(p.a, v.fl), Nothing(), x);
    case _ =>
  }

  lemma {:induction false} UnlinkNotPast(c: Ctl, v: Ptr, ok: bool, n: int, x: nat)
    requires c.InUnlink?
    ensures !Past(AfterUnlink(c.n, c.upc, c.uk, v, ok, n), x)
  {
    hide Then, Nothing, Unflags;
  }

  /** A release gets past its wait only by reading a count of at most one. */
  lemma {:induction false} PastAfter(c: Ctl, v: Ptr, ok: bool, n: int, x: nat)
    requires Past(After(c, v, ok, n), x)
    ensures c.InRelease? && c.n == x && (c.rpc == RWait ==> n <= 1)
  {
    hide Then, Nothing, Unflags, AfterSucc, AfterPred, AfterUnlink, AfterInsert;
    match c
    case InSucc(_, _, _) => SuccNotPast(c, v, ok, x);
    case InPred(_, _, _) => PredNotPast(c, v, ok, x);
    case InUnlink(_, _, _) => UnlinkNotPast(c, v, ok, n, x);
    case InInsert(_, _) => InsertToken(c, v, ok, x);
    case _ =>
  }

  // ----- The invariant of a node -----

  /**
   While the mark of x stands at most one thread is completing its unlink or release, and at most one
   success is unreported; once a release is past its wait none is.
   */
  ghost predicate Once(s: State, x: nat)
    requires ValidNode(s.mem, x)
  {
    && AllTokens(s.threads, x) <= Bit(s.mem[x].pred.fl)
    && AllUnreported(s.threads, x) <= Bit(s.mem[x].pred.fl)
    && forall t :: 0 <= t < |s.threads| && Past(s.threads[t], x) ==> AllUnreported(s.threads, x) == 0
  }

  /** Each unreported success is covered by a reference. */
  lemma {:induction false} UnreportedBelow(ts: seq<Thread>, t: nat, x: nat)
    requires x != NIL && t < |ts| && forall u :: 0 <= u < |ts| ==> Covered(ts[u])
    ensures AllUnreported(ts, x) - Unreported(ts[t], x) <= AllHeld(ts, x) - Held(ts[t], x)
  {
    hide Unreported, Net, Acqs, Refs;
    var rest := ts[1..];
    assert forall u :: 0 <= u < |rest| ==> rest[u] == ts[u + 1];
    NetBelow(ts[0].pend, x);
    if t > 0 {
      UnreportedBelow(rest, t - 1, x);
    } else if rest != [] {
      NetBelow(rest[0].pend, x);
      UnreportedBelow(rest, 0, x);
    }
  }

  /** A count of one at the wait of a release: every success on the node has been reported. */
  lemma {:induction false} WaitOver(s: State, t: nat)
    requires Inv(s) && t < |s.threads| && s.threads[t].pend == [] && s.threads[t].ctl.InRelease?
    requires ValidNode(s.mem, s.threads[t].ctl.n) && s.mem[s.threads[t].ctl.n].cnt <= 1
    ensures AllUnreported(s.threads, s.threads[t].ctl.n) == 0
  {
    hide AllHeld, Acqs, KnowsLink, LinkRefs;
    var n := s.threads[t].ctl.n;
    assert NodeOk(s, n);
    assert forall u :: 0 <= u < |s.threads| ==> ThreadOk(s.mem, s.threads[u]);
    UnreportedBelow(s.threads, t, n);
  }

  /** An operation changes a deletion mark only by setting it. */
  lemma {:induction false} FlagAfterOp(s: State, t: nat, x: nat)
    requires AtOp(s, t) && ValidNode(s.mem, x)
    ensures var c := s.threads[t].ctl;
            var marks := IsMark(c) && Ok(s.mem, NextOp(c)) && c.n == x;
            && Step(s, Run(t)).mem[x].pred.fl == (s.mem[x].pred.fl || marks)
            && (marks ==> !s.mem[x].pred.fl)
  {
    hide After, NextOp;
    OnlyUnlinkMarks(s.threads[t].ctl);
  }

  lemma {:induction false} OpOnce(s: State, t: nat, x: nat)
    requires AtOp(s, t) && ValidNode(s.mem, x) && Once(s, x)
    ensures ValidNode(Step(s, Run(t)).mem, x) && Once(Step(s, Run(t)), x)
  {
    hide After, NextOp, Guarded, Refs, Acqs, AllTokens, AllUnreported, AllHeld, Past, KnowsLink, Held, Locks;
    var c, th := s.threads[t].ctl, OpThread(s, t);
    var op := NextOp(c);
    assert ThreadOk(s.mem, s.threads[t]);
    ApplyLinks(s.mem, op, NIL);
    TokenAfter(c, Seen(s.mem, op), Ok(s.mem, op), OpCount(s, t), x);
    AfterBooks(c, Seen(s.mem, op), Ok(s.mem, op), OpCount(s, t), x, Fld(NIL, Succ));
    TokensUpdate(s.threads, t, th, x);
    AllUpdate(s.threads, t, th, x, Fld(NIL, Succ));
    FlagAfterOp(s, t, x);
    forall u | 0 <= u < |s.threads| && Past(Step(s, Run(t)).threads[u], x)
      ensures AllUnreported(s.threads[t := th], x) == 0
    {
      PastStays(s, t, u, x);
    }
  }

  lemma {:induction false} PastStays(s: State, t: nat, u: nat, x: nat)
    requires AtOp(s, t) && ValidNode(s.mem, x) && Once(s, x) && u < |s.threads|
    requires Past(Step(s, Run(t)).threads[u], x)
    ensures AllUnreported(s.threads[t := OpThread(s, t)], x) == 0
  {
    hide After, NextOp, Guarded, Refs, Acqs, AllTokens, AllUnreported, AllHeld, KnowsLink, Held, Locks, Unflags;
    var c, th := s.threads[t].ctl, OpThread(s, t);
    var op := NextOp(c);
    assert ThreadOk(s.mem, s.threads[t]);
    AfterBooks(c, Seen(s.mem, op), Ok(s.mem, op), OpCount(s, t), x, Fld(NIL, Succ));
    AllUpdate(s.threads, t, th, x, Fld(NIL, Succ));
    FlagAfterOp(s, t, x);
    TokensUpdate(s.threads, u, s.threads[u], x);
    if u == t {
      PastAfter(c, Seen(s.mem, op), Ok(s.mem, op), OpCount(s, t), x);
      if c.rpc == RWait {
        ReleaseReads(c);
        WaitOver(s, t);
      }
    }
  }

  lemma ReleaseReads(c: Ctl)
    requires c.InRelease? && c.rpc == RWait
    ensures NextOp(c) == ReadCnt(c.n)
  {
  }

  lemma {:induction false} MicroOnce(s: State, t: nat, x: nat)
    requires AtMicro(s, t) && ValidNode(s.mem, x) && Once(s, x)
    ensures ValidNode(Step(s, Run(t)).mem, x) && Once(Step(s, Run(t)), x)
  {
    hide Guarded, Refs, Acqs, AllTokens, AllUnreported, AllHeld, KnowsLink, Net, Unlocks, TokenC, Marked;
    var th := s.threads[t];
    var s' := Step(s, Run(t));
    TokensUpdate(s.threads, t, Popped(th), x);
    AllUpdate(s.threads, t, Popped(th), x, Fld(NIL, Succ));
    if th.pend[0] == Unflag(Fld(x, Pred)) {
      assert Past(th, x);
      forall u | 0 <= u < |s'.threads| ensures !Past(s'.threads[u], x) {
        TokensUpdate(s'.threads, u, s'.threads[u], x);
        PastHasToken(s'.threads[u], x);
      }
    } else {
      forall u | 0 <= u < |s'.threads| && Past(s'.threads[u], x) ensures AllUnreported(s'.threads, x) == 0 {
        assert Past(s.threads[u], x);
      }
    }
  }

  lemma {:induction false} PastHasToken(th: Thread, x: nat)
    ensures Past(th, x) ==> Token(th, x) >= 1
  {
    hide Unflags;
  }

  // ----- The discipline of callers -----

  /** The mark of n stands, and no thread is still unlinking n or already releasing it. */
  ghost predicate Owed(s: State, n: nat) {
    ValidNode(s.mem, n) && s.mem[n].pred.fl && AllTokens(s.threads, n) == 0
  }

  /** ll_unlink_release, and an insert that waits for the release, are called only for a node that is owed one. */
  ghost predicate Permitted(s: State, act: Act) {
    match act
    case Call(_, LlUnlinkRelease(n)) => Owed(s, n)
    case Call(_, LlInsert(n, _, _, _, wait)) => wait ==> Owed(s, n)
    case _ => true
  }

  ghost predicate Disciplined(s: State, run: seq<Act>) {
    run == [] || (Disciplined(s, run[..|run| - 1]) && Permitted(Exec(s, run[..|run| - 1]), run[|run| - 1]))
  }

  lemma {:induction false} BeginToken(api: Api, bag: multiset<nat>, x: nat)
    ensures Token(Begin(api, bag), x) <= (match api
                                          case LlUnlinkRelease(n) => One(n, x)
                                          case LlInsert(n, _, _, _, wait) => if wait then One(n, x) else 0
                                          case _ => 0)
    ensures !Past(Begin(api, bag), x)
  {
    hide Then, Nothing, Unflags;
  }

  lemma {:induction false} CallOnce(s: State, t: nat, api: Api, x: nat)
    requires Inv(s) && Permitted(s, Call(t, api)) && ValidNode(s.mem, x) && Once(s, x)
    ensures ValidNode(Step(s, Call(t, api)).mem, x) && Once(Step(s, Call(t, api)), x)
  {
    hide Begin, Guarded, Refs, Acqs, AllTokens, AllUnreported, AllHeld, KnowsLink, Net, Unlocks, Unflags, Inv;
    var s' := Step(s, Call(t, api));
    if s' != s {
      var th, bag := Begin(api, s.threads[t].ctl.bag), s.threads[t].ctl.bag;
      BeginToken(api, bag, x);
      BeginBooks(api, bag, x, Fld(NIL, Succ));
      TokensUpdate(s.threads, t, th, x);
      AllUpdate(s.threads, t, th, x, Fld(NIL, Succ));
      forall u | 0 <= u < |s'.threads| && Past(s'.threads[u], x) ensures AllUnreported(s'.threads, x) == 0 {
        assert Past(s.threads[u], x);
      }
    }
  }

  /** A call of ll_unlink_release keeps this invariant of n if and only if n is owed a release. */
  lemma {:induction false} OnceIffOwed(s: State, t: nat, n: nat)
    requires ValidNode(s.mem, n) && Once(s, n) && t < |s.threads|
    requires s.threads[t].pend == [] && s.threads[t].ctl.Idle? && n in s.threads[t].ctl.bag
    ensures Once(Step(s, Call(t, LlUnlinkRelease(n))), n) <==> Owed(s, n)
  {
    hide AllTokens, AllUnreported, AllHeld, AllLocks;
    var s' := Step(s, Call(t, LlUnlinkRelease(n)));
    TokensUpdate(s.threads, t, s'.threads[t], n);
    AllUpdate(s.threads, t, s'.threads[t], n, Fld(NIL, Succ));
    forall u | 0 <= u < |s'.threads| && Past(s'.threads[u], n) ensures AllUnreported(s'.threads, n) == 0 {
      assert Past(s.threads[u], n);
    }
  }

  lemma {:induction false} GiveOnce(s: State, t: nat, u: nat, y: nat, x: nat)
    requires ValidNode(s.mem, x) && Once(s, x)
    ensures ValidNode(Step(s, Give(t, u, y)).mem, x) && Once(Step(s, Give(t, u, y)), x)
  {
    hide AllTokens, AllUnreported, AllHeld, AllLocks;
    var s' := Step(s, Give(t, u, y));
    if s' != s {
      var a, b := s'.threads[t], s'.threads[u];
      TokensUpdate(s.threads, t, a, x);
      TokensUpdate(s.threads[t := a], u, b, x);
      AllUpdate(s.threads, t, a, x, Fld(NIL, Succ));
      AllUpdate(s.threads[t := a], u, b, x, Fld(NIL, Succ));
      forall v | 0 <= v < |s'.threads| && Past(s'.threads[v], x) ensures AllUnreported(s'.threads, x) == 0 {
        assert Past(s.threads[v], x);
      }
    }
  }

  lemma {:induction false} StepOnce(s: State, act: Act, x: nat)
    requires Inv(s) && Permitted(s, act) && ValidNode(s.mem, x) && Once(s, x)
    ensures ValidNode(Step(s, act).mem, x) && Once(Step(s, act), x)
  {
    hide Inv, Once, AllTokens, Permitted;
    match act
    case Run(t) =>
      if t < |s.threads| {
        if s.threads[t].pend != [] {
          if MicroEnabled(s.mem, s.threads[t].pend[0]) { MicroOnce(s, t, x); }
        } else if ValidNode(s.mem, Target(NextOp(s.threads[t].ctl))) {
          OpOnce(s, t, x);
        }
      }
    case Call(t, api) => CallOnce(s, t, api, x);
    case Give(t, u, y) => GiveOnce(s, t, u, y, x);
  }

  lemma {:induction false} NoTokens(ts: seq<Thread>, x: nat)
    requires forall t :: 0 <= t < |ts| ==> ts[t] == Thread([], Idle(multiset{}))
    ensures AllTokens(ts, x) == 0
  {
    if ts == [] {
    } else {
      NoTokens(ts[1..], x);
    }
  }

  lemma {:induction false} InitOnce(nodes: nat, threads: nat, x: nat)
    requires ValidNode(Init(nodes, threads).mem, x)
    ensures Once(Init(nodes, threads), x)
  {
    hide AllTokens, AllUnreported, AllHeld, AllLocks, Past;
    var s := Init(nodes, threads);
    NoTokens(s.threads, x);
    NoBooks(s.threads, x, Fld(NIL, Succ));
    assert AllTokens(s.threads, x) == 0 && AllUnreported(s.threads, x) == 0;
  }

  lemma {:induction false} OnceInEveryRun(nodes: nat, threads: nat, run: seq<Act>, x: nat)
    requires Disciplined(Init(nodes, threads), run) && ValidNode(Init(nodes, threads).mem, x)
    ensures var s := Exec(Init(nodes, threads), run); ValidNode(s.mem, x) && Once(s, x)
  {
    hide Step, Inv, Permitted, Init, Once;
    if run == [] {
      InitOnce(nodes, threads, x);
    } else {
      var front := run[..|run| - 1];
      OnceInEveryRun(nodes, threads, front, x);
      EveryRun(nodes, threads, front);
      StepOnce(Exec(Init(nodes, threads), front), run[|run| - 1], x);
    }
  }

  /**
   In every disciplined run the successes of llll_unlink on a node are as many as its releases, or one more:
   no release comes before its success is reported, and no second success before the release.
   */
  lemma {:induction false} UnlinkedOncePerRelease(nodes: nat, threads: nat, run: seq<Act>, n: nat)
    requires Disciplined(Init(nodes, threads), run) && ValidNode(Init(nodes, threads).mem, n)
    ensures var s := Exec(Init(nodes, threads), run);
            && ValidNode(s.mem, n)
            && s.mem[n].clears <= s.mem[n].rets <= s.mem[n].clears + 1
            && (s.mem[n].rets == s.mem[n].clears + 1 ==> s.mem[n].pred.fl)
  {
    hide Init, Exec, Disciplined;
    OnceInEveryRun(nodes, threads, run, n);
    EveryRun(nodes, threads, run);
    assert NodeOk(Exec(Init(nodes, threads), run), n);
  }

  /** Between two points of a disciplined run with no release of n in between, at most one llll_unlink(n) returns 1. */
  lemma {:induction false} OneSuccessPerInterval(nodes: nat, threads: nat, run: seq<Act>, more: seq<Act>, n: nat)
    requires Disciplined(Init(nodes, threads), run) && Disciplined(Init(nodes, threads), run + more)
    requires ValidNode(Init(nodes, threads).mem, n)
    ensures var s, s' := Exec(Init(nodes, threads), run), Exec(Init(nodes, threads), run + more);
            && ValidNode(s.mem, n) && ValidNode(s'.mem, n)
            && (s'.mem[n].clears == s.mem[n].clears ==> s'.mem[n].rets <= s.mem[n].rets + 1)
  {
    hide Init, Exec, Disciplined;
    UnlinkedOncePerRelease(nodes, threads, run, n);
    UnlinkedOncePerRelease(nodes, threads, run + more, n);
  }

  // ----- The discipline, from the history of the callers -----

  /** Unlinks of x that this step returns to a caller without having released x. */
  function HandedBy(s: State, act: Act, x: nat): nat {
    if act.Run? && act.t < |s.threads| && s.threads[act.t].pend == [] && act.t < |Step(s, act).threads|
    then Handed(Step(s, act).threads[act.t], x) else 0
  }

  /** Releases of x that this step calls for: ll_unlink_release(x), or an insert that waits for the release. */
  function AskedBy(s: State, act: Act, x: nat): nat {
    if act.Call? && act.t < |s.threads| && s.threads[act.t].pend == [] && s.threads[act.t].ctl.Idle?
    then Releasing(Begin(act.api, s.threads[act.t].ctl.bag).ctl, x) else 0
  }

  /** How many unlinks of x that did not wait have been returned to callers, less the releases they called for since. */
  function Outstanding(s: State, run: seq<Act>, x: nat): int {
    if run == [] then 0
    else
      var front, act := run[..|run| - 1], run[|run| - 1];
      Outstanding(s, front, x) + HandedBy(Exec(s, front), act, x) - AskedBy(Exec(s, front), act, x)
  }

  /** Callers release a node only when an unlink of it was returned to them and they have not released it since. */
  ghost predicate Fair(s: State, run: seq<Act>) {
    run == [] ||
    (var front, act := run[..|run| - 1], run[|run| - 1];
     Fair(s, front) &&
     match act
     case Call(_, LlUnlinkRelease(n)) => ValidNode(s.mem, n) && Outstanding(s, front, n) >= 1
     case Call(_, LlInsert(n, _, _, _, wait)) => wait ==> ValidNode(s.mem, n) && Outstanding(s, front, n) >= 1
     case _ => true)
  }

  /** What a step does to the marks, the tokens and the history. */
  ghost predicate Balanced(s: State, act: Act, x: nat)
    requires ValidNode(s.mem, x) && ValidNode(Step(s, act).mem, x)
  {
    AllTokens(Step(s, act).threads, x) + HandedBy(s, act, x) - AskedBy(s, act, x) - AllTokens(s.threads, x)
    == Bit(Step(s, act).mem[x].pred.fl) - Bit(s.mem[x].pred.fl)
  }

  lemma {:induction false} OpBalanced(s: State, t: nat, x: nat)
    requires AtOp(s, t) && ValidNode(s.mem, x)
    ensures ValidNode(Step(s, Run(t)).mem, x) && Balanced(s, Run(t), x)
  {
    hide After, NextOp, Guarded, Refs, Acqs, AllTokens, AllUnreported, AllHeld, KnowsLink, Held, Locks, Handed, Unflags;
    var c, th := s.threads[t].ctl, OpThread(s, t);
    var op := NextOp(c);
    assert ThreadOk(s.mem, s.threads[t]);
    ApplyLinks(s.mem, op, NIL);
    TokenAfter(c, Seen(s.mem, op), Ok(s.mem, op), OpCount(s, t), x);
    TokensUpdate(s.threads, t, th, x);
    FlagAfterOp(s, t, x);
    assert Unflags([], Fld(x, Pred)) == 0 by { NoUnflags(x); }
  }

  lemma NoUnflags(x: nat)
    ensures Unflags([], Fld(x, Pred)) == 0 && Returneds([], x) == 0
  {
  }

  lemma {:induction false} MicroBalanced(s: State, t: nat, x: nat)
    requires AtMicro(s, t) && ValidNode(s.mem, x) && Once(s, x)
    ensures ValidNode(Step(s, Run(t)).mem, x) && Balanced(s, Run(t), x)
  {
    hide Guarded, Refs, Acqs, AllTokens, AllUnreported, AllHeld, KnowsLink, Net, Unlocks, TokenC, Marked;
    TokensUpdate(s.threads, t, Popped(s.threads[t]), x);
  }

  lemma {:induction false} CallBalanced(s: State, t: nat, api: Api, x: nat)
    requires ValidNode(s.mem, x)
    ensures ValidNode(Step(s, Call(t, api)).mem, x) && Balanced(s, Call(t, api), x)
  {
    hide Begin, AllTokens, Unflags, Returneds;
    if t < |s.threads| && s.threads[t].pend == [] && s.threads[t].ctl.Idle? {
      TokensUpdate(s.threads, t, Begin(api, s.threads[t].ctl.bag), x);
      BeginReleasing(api, s.threads[t].ctl.bag, x);
      NoUnflags(x);
    }
  }

  lemma {:induction false} BeginReleasing(api: Api, bag: multiset<nat>, x: nat)
    ensures Token(Begin(api, bag), x) == Releasing(Begin(api, bag).ctl, x)
  {
    hide Then, Nothing, Unflags;
  }

  lemma {:induction false} GiveBalanced(s: State, t: nat, u: nat, y: nat, x: nat)
    requires ValidNode(s.mem, x)
    ensures ValidNode(Step(s, Give(t, u, y)).mem, x) && Balanced(s, Give(t, u, y), x)
  {
    hide AllTokens;
    var s' := Step(s, Give(t, u, y));
    if s' != s {
      TokensUpdate(s.threads, t, s'.threads[t], x);
      TokensUpdate(s.threads[t := s'.threads[t]], u, s'.threads[u], x);
    }
  }

  lemma {:induction false} StepBalanced(s: State, act: Act, x: nat)
    requires Inv(s) && ValidNode(s.mem, x) && Once(s, x)
    ensures ValidNode(Step(s, act).mem, x) && Balanced(s, act, x)
  {
    hide Inv, Once, AllTokens, Handed, After, Begin;
    match act
    case Run(t) =>
      if t < |s.threads| {
        if s.threads[t].pend != [] {
          if MicroEnabled(s.mem, s.threads[t].pend[0]) { MicroBalanced(s, t, x); }
        } else if ValidNode(s.mem, Target(NextOp(s.threads[t].ctl))) {
          OpBalanced(s, t, x);
        } else {
          NothingHanded(s.threads[t], x);
        }
      }
    case Call(t, api) => CallBalanced(s, t, api, x);
    case Give(t, u, y) => GiveBalanced(s, t, u, y, x);
  }

  lemma NothingHanded(th: Thread, x: nat)
    requires th.pend == []
    ensures Handed(th, x) == 0
  {
  }

  /** In every disciplined run the mark of a node stands for one unlink or release under way, or for one handed to a caller. */
  lemma {:induction false} MarkAccounted(nodes: nat, threads: nat, run: seq<Act>, x: nat)
    requires Disciplined(Init(nodes, threads), run) && ValidNode(Init(nodes, threads).mem, x)
    ensures var s := Exec(Init(nodes, threads), run);
            ValidNode(s.mem, x) && AllTokens(s.threads, x) + Outstanding(Init(nodes, threads), run, x) == Bit(s.mem[x].pred.fl)
  {
    hide Step, Inv, Permitted, Once, AllTokens, HandedBy, AskedBy;
    var s0 := Init(nodes, threads);
    if run == [] {
      NoTokens(s0.threads, x);
    } else {
      hide Init;
      var front := run[..|run| - 1];
      MarkAccounted(nodes, threads, front, x);
      OnceInEveryRun(nodes, threads, front, x);
      EveryRun(nodes, threads, front);
      StepBalanced(Exec(s0, front), run[|run| - 1], x);
    }
  }

  /** A node is owed a release exactly when the history of the callers says so. */
  lemma {:induction false} OwedIffOutstanding(nodes: nat, threads: nat, run: seq<Act>, n: nat)
    requires Disciplined(Init(nodes, threads), run) && ValidNode(Init(nodes, threads).mem, n)
    ensures Owed(Exec(Init(nodes, threads), run), n) <==> Outstanding(Init(nodes, threads), run, n) >= 1
  {
    hide Init, Exec, Outstanding, Disciplined, AllTokens;
    MarkAccounted(nodes, threads, run, n);
  }

  lemma {:induction false} SameNodes(s: State, run: seq<Act>)
    ensures |Exec(s, run).mem| == |s.mem|
  {
    if run == [] {
    } else {
      SameNodes(s, run[..|run| - 1]);
      StepSameNodes(Exec(s, run[..|run| - 1]), run[|run| - 1]);
    }
  }

  lemma StepSameNodes(s: State, act: Act)
    ensures |Step(s, act).mem| == |s.mem|
  {
    hide After, NextOp, Begin;
  }

  /** A run is disciplined if and only if callers release exactly what was returned to them and not released since. */
  lemma {:induction false} FairIffDisciplined(nodes: nat, threads: nat, run: seq<Act>)
    ensures Fair(Init(nodes, threads), run) <==> Disciplined(Init(nodes, threads), run)
  {
    hide Init, Exec, Outstanding, AllTokens;
    if run == [] {
    } else {
      var front := run[..|run| - 1];
      FairIffDisciplined(nodes, threads, front);
      if Disciplined(Init(nodes, threads), front) {
        SameNodes(Init(nodes, threads), front);
        match run[|run| - 1]
        case Call(_, LlUnlinkRelease(n)) => OwedIff(nodes, threads, front, n);
        case Call(_, LlInsert(n, _, _, _, _)) => OwedIff(nodes, threads, front, n);
        case _ =>
      }
    }
  }

  lemma {:induction false} OwedIff(nodes: nat, threads: nat, run: seq<Act>, n: nat)
    requires Disciplined(Init(nodes, threads), run)
    ensures Owed(Exec(Init(nodes, threads), run), n) <==>
            ValidNode(Init(nodes, threads).mem, n) && Outstanding(Init(nodes, threads), run, n) >= 1
  {
    hide Init, Exec, Outstanding, Disciplined, AllTokens;
    SameNodes(Init(nodes, threads), run);
    if ValidNode(Init(nodes, threads).mem, n) { OwedIffOutstanding(nodes, threads, run, n); }
  }

  /** The theorem for callers: if they release only what was returned to them, at most one unlink succeeds per release. */
  lemma {:induction false} FairlyUnlinkedOnce(nodes: nat, threads: nat, run: seq<Act>, n: nat)
    requires Fair(Init(nodes, threads), run) && ValidNode(Init(nodes, threads).mem, n)
    ensures var s := Exec(Init(nodes, threads), run);
            ValidNode(s.mem, n) && s.mem[n].clears <= s.mem[n].rets <= s.mem[n].clears + 1
  {
    hide Init, Exec, Disciplined, Fair;
    FairIffDisciplined(nodes, threads, run);
    UnlinkedOncePerRelease(nodes, threads, run, n);
  }
}
