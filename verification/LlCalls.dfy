/**
 What the calls of service/ll.c return in the interleaved machine: in a state where every thread is idle, a thread that
 makes a call and runs alone ends idle, and the list, the size and its references are those of the sequence.
 */
module LlCalls {
  import opened Options
  import opened LlTypes
  import opened LlMachine
  import opened LlShape
  import opened LlList
  import opened LlScene
  import opened LlSolo

  // ----- States between calls -----

  function BagOf(th: Thread): multiset<nat> { if th.ctl.Idle? then th.ctl.bag else multiset{} }

  /** The references to x that the applications hold. */
  function Bags(ts: seq<Thread>, x: nat): nat { if ts == [] then 0 else BagOf(ts[0])[x] + Bags(ts[1..], x) }

  function HeldBy(ts: seq<Thread>, n: nat): (held: seq<nat>)
    ensures |held| == n && forall x :: 0 <= x < n ==> held[x] == Bags(ts, x)
  {
    seq(n, x requires 0 <= x => Bags(ts, x))
  }

  /** The nodes without their DEREF bits and history. */
  function Nodes(mem: seq<Elem>): (m: seq<Node>)
    ensures |m| == |mem| && forall x :: 0 <= x < |mem| ==> m[x] == Node(Strip(mem[x].succ), Strip(mem[x].pred), mem[x].cnt)
  {
    seq(|mem|, x requires 0 <= x < |mem| => Node(Strip(mem[x].succ), Strip(mem[x].pred), mem[x].cnt))
  }

  /** Every thread is idle, no link is locked, and the memory represents the list `order`. */
  ghost predicate Rests(s: State, order: seq<nat>, place: seq<real>) {
    && (forall u :: 0 <= u < |s.threads| ==> s.threads[u].pend == [] && s.threads[u].ctl.Idle?)
    && (forall x :: 0 <= x < |s.mem| ==> !s.mem[x].succ.de && !s.mem[x].pred.de)
    && s.size == |order|
    && Represents(Nodes(s.mem), order, HeldBy(s.threads, |s.mem|), place)
  }

  lemma RestsRepresents(s: State, order: seq<nat>, place: seq<real>)
    requires Rests(s, order, place)
    ensures Represents(Nodes(s.mem), order, HeldBy(s.threads, |s.mem|), place)
  {
  }

  /** Thread t is idle with these references. */
  predicate IdleWith(s: State, t: nat, bag: multiset<nat>) { t < |s.threads| && s.threads[t] == Thread([], Idle(bag)) }

  /** The state after the call and k steps of the thread that made it. */
  function Called(s: State, t: nat, api: Api, k: nat): State { Alone(Step(s, Call(t, api)), t, k) }

  /** The call is over: its thread is idle with `bag` and the other threads are as they were. */
  predicate Over(s: State, t: nat, s': State, bag: multiset<nat>) {
    t < |s.threads| && s'.threads == s.threads[t := Thread([], Idle(bag))]
  }

  /** Once idle, a thread that runs on changes nothing. */
  lemma {:induction false} StaysOver(s: State, t: nat, api: Api, k: nat, j: nat, bag: multiset<nat>)
    requires Over(s, t, Called(s, t, api, k), bag)
    ensures Called(s, t, api, k + j) == Called(s, t, api, k)
    decreases j
  {
    hide Begin, After, NextOp;
    if j == 0 {
    } else {
      StaysOver(s, t, api, k, j - 1, bag);
      var s' := Called(s, t, api, k);
      assert Called(s, t, api, k + j) == Step(Called(s, t, api, k + (j - 1)), Run(t));
      IdleStep(s', t);
    }
  }

  lemma IdleStep(s: State, t: nat)
    requires t < |s.threads| && s.threads[t].pend == [] && s.threads[t].ctl.Idle?
    ensures Step(s, Run(t)) == s
  {
    hide After;
  }

  lemma {:induction false} BagsUpdate(ts: seq<Thread>, t: nat, th: Thread, x: nat)
    requires t < |ts|
    ensures Bags(ts[t := th], x) == Bags(ts, x) - BagOf(ts[t])[x] + BagOf(th)[x]
    ensures Bags(ts, x) >= BagOf(ts[t])[x]
  {
    hide BagOf;
    if t == 0 {
      assert ts[t := th][1..] == ts[1..];
    } else {
      assert ts[t := th][1..] == ts[1..][t - 1 := th];
      BagsUpdate(ts[1..], t - 1, th, x);
    }
  }

  lemma HeldAfter(ts: seq<Thread>, t: nat, bag: multiset<nat>, bag': multiset<nat>, held: seq<nat>)
    requires t < |ts| && ts[t] == Thread([], Idle(bag))
    requires forall x :: 0 <= x < |held| ==> held[x] == Bags(ts, x) - bag[x] + bag'[x]
    ensures held == HeldBy(ts[t := Thread([], Idle(bag'))], |held|)
  {
    forall x | 0 <= x < |held| ensures held[x] == Bags(ts[t := Thread([], Idle(bag'))], x) {
      BagsUpdate(ts, t, Thread([], Idle(bag')), x);
    }
  }

  lemma HeldAtLeast(s: State, t: nat, bag: multiset<nat>, x: nat)
    requires IdleWith(s, t, bag) && x < |s.mem|
    ensures HeldBy(s.threads, |s.mem|)[x] >= bag[x]
  {
    BagsUpdate(s.threads, t, s.threads[t], x);
  }

  lemma Begins(s: State, t: nat, api: Api, order: seq<nat>, place: seq<real>, bag: multiset<nat>)
    requires Rests(s, order, place) && IdleWith(s, t, bag)
    ensures At(Solo(Step(s, Call(t, api)), t), Open(Nodes(s.mem), |order|), Begin(api, bag))
  {
    hide Represents, Begin, At, Alone;
    var s1 := Step(s, Call(t, api));
    assert Looks(s1.mem, Open(Nodes(s.mem), |order|));
    Starts(Solo(s1, t), Open(Nodes(s.mem), |order|));
  }

  lemma Ends(s: State, t: nat, api: Api, bag: multiset<nat>, m: seq<Node>, order: seq<nat>, held: seq<nat>, place: seq<real>,
             bag': multiset<nat>) returns (k: nat)
    requires IdleWith(s, t, bag) && (forall u :: 0 <= u < |s.threads| ==> s.threads[u].pend == [] && s.threads[u].ctl.Idle?)
    requires At(Solo(Step(s, Call(t, api)), t), Open(m, |order|), Thread([], Idle(bag')))
    requires Represents(m, order, held, place) && |held| == |m|
    requires forall x :: 0 <= x < |held| ==> held[x] == Bags(s.threads, x) - bag[x] + bag'[x]
    ensures var s' := Called(s, t, api, k); Over(s, t, s', bag') && Nodes(s'.mem) == m && Rests(s', order, place)
  {
    hide Represents, Begin, Alone;
    var g := Solo(Step(s, Call(t, api)), t);
    var j: nat :| Shows(Alone(g.start, g.t, j), g, Open(m, |order|), Thread([], Idle(bag')));
    k := j;
    var s' := Alone(g.start, t, k);
    assert s'.threads == s.threads[t := Thread([], Idle(bag'))];
    assert Nodes(s'.mem) == m;
    HeldAfter(s.threads, t, bag, bag', held);
  }

  // ----- ll_succ, ll_pred, ll_ref and ll_release -----

  /** The references of a caller who is given e, or NULL. */
  function Given(bag: multiset<nat>, e: nat): multiset<nat> { if e == NIL then bag else bag + multiset{e} }

  ghost predicate HeldMore(held: seq<nat>, held': seq<nat>, e: nat) {
    |held'| == |held| && forall x :: 0 <= x < |held| ==> held'[x] == held[x] + if e == NIL then 0 else One(e, x)
  }

  lemma SuccAlone(g: Solo, m: seq<Node>, order: seq<nat>, held: seq<nat>, place: seq<real>, n: nat, bag: multiset<nat>)
    returns (m': seq<Node>, held': seq<nat>)
    requires Represents(m, order, held, place) && Valid(m, n) && At(g, Open(m, |order|), Thread([], InSucc(n, SStart, KApi(bag))))
    ensures var e := Element(EndOf(NextPath(m, order, place, n)));
            At(g, Open(m', |order|), Thread([], Idle(Given(bag, e)))) && Represents(m', order, held', place) && HeldMore(held, held', e)
  {
    hide At, Settled, CountOk, Ring, SuccPath, SuccChain, NextPath, SuccMem, RetPtr, Bump;
    var path := NextPath(m, order, place, n);
    NextChain(m, order, held, place, n);
    SuccRepresents(m, order, held, place, n);
    m', held' := m, held;
    if path == [] {
      SuccChainNull(m, n);
      SuccNull(g, m, |order|, n, bag);
    } else {
      SuccChainStart(m, n, path);
      SuccRun(g, m, |order|, n, path, KApi(bag));
      m', held' := ApiAlone(g, SuccMem(m, n, path), order, held, place, path, m[n].succ.fl, bag);
    }
  }

  lemma SuccChainNull(m: seq<Node>, n: nat)
    requires SuccChain(m, n, []) || PredChain(m, n, [])
    ensures SuccChain(m, n, []) ==> m[n].succ.a == NIL
    ensures PredChain(m, n, []) ==> m[n].pred.a == NIL
  {
  }

  lemma ApiAlone(g: Solo, m: seq<Node>, order: seq<nat>, held: seq<nat>, place: seq<real>, path: seq<nat>, fl: bool, bag: multiset<nat>)
    returns (m': seq<Node>, held': seq<nat>)
    requires path != [] && Last(path) in Ring(order) && Represents(m, order, Take(held, path), place) && |held| == |m|
    requires At(g, Open(m, |order|), RetPtr(KApi(bag), Tag(Last(path), fl), Nothing()))
    ensures var e := Element(Last(path));
            At(g, Open(m', |order|), Thread([], Idle(Given(bag, e)))) && Represents(m', order, held', place) && HeldMore(held, held', e)
  {
    hide At, Settled, CountOk, Ring, RetPtr, Nothing, Bump;
    var x := Last(path);
    OnListStands(m, order, place, x);
    ApiReturns(g, m, |order|, Tag(x, fl), bag);
    m', held' := m, Take(held, path);
    if x == HEAD {
      HoldRepresents(m, order, held', place, HEAD, -1);
      m', held' := Bump(m, HEAD, -1), held'[HEAD := held'[HEAD] - 1];
    }
  }

  lemma PredAlone(g: Solo, m: seq<Node>, order: seq<nat>, held: seq<nat>, place: seq<real>, n: nat, bag: multiset<nat>)
    returns (m': seq<Node>, held': seq<nat>)
    requires Represents(m, order, held, place) && Valid(m, n) && At(g, Open(m, |order|), Thread([], InPred(n, PStart, KApi(bag))))
    ensures var e := Element(EndOf(PrevPath(m, order, place, n)));
            At(g, Open(m', |order|), Thread([], Idle(Given(bag, e)))) && Represents(m', order, held', place) && HeldMore(held, held', e)
  {
    hide At, Settled, CountOk, Ring, PredPath, PredChain, ForwardChain, PrevPath, PredMem, RetPtr, Bump;
    var path := PrevPath(m, order, place, n);
    PrevChain(m, order, held, place, n);
    PredRepresents(m, order, held, place, n);
    m', held' := m, held;
    if path == [] {
      SuccChainNull(m, n);
      PredNull(g, m, |order|, n, bag);
    } else {
      PredChainStart(m, n, path);
      PredRun(g, m, |order|, n, path, KApi(bag));
      m', held' := ApiAlone(g, PredMem(m, n, path), order, held, place, path, m[n].pred.fl, bag);
    }
  }

  /** ll_succ: the node behind n on the list, NULL behind the last one. */
  lemma SuccCall(s: State, t: nat, order: seq<nat>, place: seq<real>, bag: multiset<nat>, n: nat) returns (k: nat, e: nat)
    requires Rests(s, order, place) && IdleWith(s, t, bag) && Valid(Nodes(s.mem), n) && (n == HEAD || n in bag)
    ensures var s' := Called(s, t, LlSucc(n), k); Over(s, t, s', Given(bag, e)) && Rests(s', order, place)
    ensures forall j :: 0 <= j <= |order| && Ring(order)[j] == n ==> e == Element(Ring(order)[j + 1])
    ensures n != HEAD && Deleted(Nodes(s.mem), n) ==> e == Element(LandsBefore(Nodes(s.mem), order, place, n))
    ensures !Stands(Nodes(s.mem), order, n) ==> e == NIL
  {
    hide At, Settled, CountOk, Ring, SuccPath, SuccChain, RetPtr, Bump, Alone, Stands;
    var m, h := Nodes(s.mem), HeldBy(s.threads, |s.mem|);
    NextChain(m, order, h, place, n);
    e := Element(EndOf(NextPath(m, order, place, n)));
    Begins(s, t, LlSucc(n), order, place, bag);
    var m1, h1 := SuccAlone(Solo(Step(s, Call(t, LlSucc(n))), t), m, order, h, place, n, bag);
    k := Ends(s, t, LlSucc(n), bag, m1, order, h1, place, Given(bag, e));
  }

  /** ll_pred: the node before n on the list, NULL before the first one. */
  lemma PredCall(s: State, t: nat, order: seq<nat>, place: seq<real>, bag: multiset<nat>, n: nat) returns (k: nat, e: nat)
    requires Rests(s, order, place) && IdleWith(s, t, bag) && Valid(Nodes(s.mem), n) && (n == HEAD || n in bag)
    ensures var s' := Called(s, t, LlPred(n), k); Over(s, t, s', Given(bag, e)) && Rests(s', order, place)
    ensures forall j :: 0 <= j <= |order| && Ring(order)[j + 1] == n ==> e == Element(Ring(order)[j])
    ensures n != HEAD && Deleted(Nodes(s.mem), n) ==> e == Element(LandsAfter(Nodes(s.mem), order, place, n))
    ensures !Stands(Nodes(s.mem), order, n) ==> e == NIL
  {
    hide At, Settled, CountOk, Ring, PredPath, PredChain, RetPtr, Bump, Alone, Stands;
    var m, h := Nodes(s.mem), HeldBy(s.threads, |s.mem|);
    PrevChain(m, order, h, place, n);
    e := Element(EndOf(PrevPath(m, order, place, n)));
    Begins(s, t, LlPred(n), order, place, bag);
    var m1, h1 := PredAlone(Solo(Step(s, Call(t, LlPred(n))), t), m, order, h, place, n, bag);
    k := Ends(s, t, LlPred(n), bag, m1, order, h1, place, Given(bag, e));
  }

  lemma RefCall(s: State, t: nat, order: seq<nat>, place: seq<real>, bag: multiset<nat>, n: nat) returns (k: nat)
    requires Rests(s, order, place) && IdleWith(s, t, bag) && HEAD < n < |s.mem|
    ensures var s' := Called(s, t, LlRef(n), k); Over(s, t, s', bag + multiset{n}) && Rests(s', order, place)
  {
    hide At, Settled, CountOk, Then, Nothing, Drain, AllFit, Bump, Alone;
    var m, h := Nodes(s.mem), HeldBy(s.threads, |s.mem|);
    Begins(s, t, LlRef(n), order, place, bag);
    DrainLaws();
    Drained(Solo(Step(s, Call(t, LlRef(n))), t), Open(m, |order|), Then(Nothing(), Acq(n)), Idle(bag + multiset{n}));
    HoldRepresents(m, order, h, place, n, 1);
    k := Ends(s, t, LlRef(n), bag, Bump(m, n, 1), order, h[n := h[n] + 1], place, bag + multiset{n});
  }

  lemma ReleaseCall(s: State, t: nat, order: seq<nat>, place: seq<real>, bag: multiset<nat>, n: nat) returns (k: nat)
    requires Rests(s, order, place) && IdleWith(s, t, bag) && HEAD < n < |s.mem| && n in bag
    ensures var s' := Called(s, t, LlRelease(n), k); Over(s, t, s', bag - multiset{n}) && Rests(s', order, place)
  {
    hide At, Settled, CountOk, Then, Nothing, Drain, AllFit, Bump, Alone;
    var m, h := Nodes(s.mem), HeldBy(s.threads, |s.mem|);
    HeldAtLeast(s, t, bag, n);
    Begins(s, t, LlRelease(n), order, place, bag);
    DrainLaws();
    Drained(Solo(Step(s, Call(t, LlRelease(n))), t), Open(m, |order|), Then(Nothing(), Rel(n, 1)), Idle(bag - multiset{n}));
    HoldRepresents(m, order, h, place, n, -1);
    k := Ends(s, t, LlRelease(n), bag, Bump(m, n, -1), order, h[n := h[n] - 1], place, bag - multiset{n});
  }

  // ----- ll_unlink, ll_unlink_release and ll_unlink_robust -----

  /** llll_unlink of a node on the list. */
  lemma UnlinkListed(g: Solo, m: seq<Node>, order: seq<nat>, held: seq<nat>, place: seq<real>, j: nat, uk: BoolK) returns (u: seq<Node>)
    requires Represents(m, order, held, place) && j < |order| && order[j] < |m| && held[order[j]] >= 1
    requires At(g, Open(m, |order|), Thread([], InUnlink(order[j], UStart, uk)))
    ensures At(g, Open(u, |order| - 1), Thread([], RetBool(uk, true, Nothing()).ctl)) && order[j] > HEAD
    ensures Represents(u, Remove(order, j), held, place) && |u| == |m| && Deleted(u, order[j]) && u[order[j]].cnt == m[order[j]].cnt - 2
  {
    hide At, Settled, CountOk, Ring, Remove, RetPtr, RetBool, Nothing, Bump, PredChain, ForwardChain, PredMem, UnlinkMem, HalfUnlinkMem,
         PredPath;
    var n, p, s := order[j], Ring(order)[j], Ring(order)[j + 2];
    AfterUnlinking(m, order, held, place, j);
    ListedNode(m, order, place, n);
    PrevChain(m, order, held, place, n);
    assert PrevPath(m, order, place, n) == [p];
    UnlinkSearches(g, m, |order|, n, uk);
    PredRun(g, m, |order|, n, [p], KUnlink(n, APred, uk));
    PredOne(m, n, p);
    UnlinkDetaches(g, m, |order|, p, n, s, uk);
    WalkRun(g, m, |order| - 1, order, held, place, j, uk);
    u := UnlinkMem(m, n, p, s);
  }

  /** llll_unlink of a node that is unlinked or was never linked. */
  lemma UnlinkOff(g: Solo, m: seq<Node>, order: seq<nat>, held: seq<nat>, place: seq<real>, n: nat, uk: BoolK) returns (m': seq<Node>)
    requires Represents(m, order, held, place) && HEAD < n < |m| && n !in order
    requires At(g, Open(m, |order|), Thread([], InUnlink(n, UStart, uk)))
    ensures At(g, Open(m', |order|), Thread([], RetBool(uk, false, Nothing()).ctl)) && Represents(m', order, held, place)
  {
    hide At, Settled, CountOk, Ring, RetPtr, RetBool, Nothing, Bump, PredChain, ForwardChain, PredMem, PredPath, PrevPath;
    ListedNode(m, order, place, n);
    m' := m;
    if m[n].succ.a == NIL {
      UnlinkAbsent(g, m, |order|, n, uk);
    } else {
      FailKeeps(m, order, held, place, n);
      assert !m[n].succ.fl by { GoneUnlocked(m, order, place, n); }
      var path := PrevPath(m, order, place, n);
      PredChainStart(m, n, path);
      UnlinkSearches(g, m, |order|, n, uk);
      PredRun(g, m, |order|, n, path, KUnlink(n, APred, uk));
      UnlinkRefused(g, PredMem(m, n, path), |order|, n, Last(path), uk);
      m' := Bump(PredMem(m, n, path), Last(path), -1);
    }
  }

  lemma GoneUnlocked(m: seq<Node>, order: seq<nat>, place: seq<real>, n: nat)
    requires Settled(m, order, place) && HEAD < n < |m| && Deleted(m, n)
    ensures !m[n].succ.fl
  {
    hide SuccPath, PredPath;
    DeletedIsGone(m, order, place, n);
  }

  /** unlink_release of a node that only its caller refers to. */
  lemma ReleaseReady(m: seq<Node>, order: seq<nat>, held: seq<nat>, place: seq<real>, n: nat, ins: bool)
    requires Represents(m, order, held, place) && Releasable(m, held, n)
    ensures var p, s := m[n].pred.a, m[n].succ.a;
            && Idles(m, n, p, s) && Represents(ReleaseMem(m, n, p, s, ins), order, held, place)
            && ReleaseMem(m, n, p, s, ins)[n] == Node(Tag(NIL, ins), Tag(NIL, false), 1) && m[n].cnt == 1
            && OthersKept(m, ReleaseMem(m, n, p, s, ins), n)
  {
    hide ReleaseMem, Settled, Links;
    GoneUnlocked(m, order, place, n);
    ReleaseRepresents(m, order, held, place, n, ins);
    ReleasedNode(m, n, m[n].pred.a, m[n].succ.a, ins);
  }

  /** ... who gives its reference up. */
  lemma ReleaseAlone(g: Solo, m: seq<Node>, z: int, order: seq<nat>, held: seq<nat>, place: seq<real>, n: nat, bag: multiset<nat>)
    returns (m': seq<Node>)
    requires Represents(m, order, held, place) && Releasable(m, held, n)
    requires At(g, Open(m, z), Thread([], InRelease(n, false, RWait, KDone(bag))))
    ensures At(g, Open(m', z), Thread([], Idle(bag))) && Represents(m', order, held[n := held[n] - 1], place) && |m'| == |m|
    ensures m'[n] == Node(Tag(NIL, false), Tag(NIL, false), 0)
  {
    hide At, ReleaseMem, Settled, CountOk, Idles;
    var p, s := m[n].pred.a, m[n].succ.a;
    ReleaseReady(m, order, held, place, n, false);
    IdlesValid(m, n, p, s);
    ReleaseRun(g, m, z, n, p, s, false, KDone(bag));
    var r := ReleaseMem(m, n, p, s, false);
    HoldRepresents(r, order, held, place, n, -1);
    m' := Bump(r, n, -1);
  }

  lemma IdlesValid(m: seq<Node>, n: nat, p: nat, s: nat)
    requires Idles(m, n, p, s)
    ensures Valid(m, n) && Valid(m, p) && Valid(m, s)
  {
  }

  /** What has become of an unlinked node: blank if it was released, marked if not. */
  predicate LeftAs(s: State, n: nat, released: bool) {
    NIL < n < |s.mem| && if released then Nodes(s.mem)[n] == Node(Tag(NIL, false), Tag(NIL, false), 0) else Deleted(Nodes(s.mem), n)
  }

  /** ll_unlink removes exactly n; with `wait` it also gives up the reference, and n is blank. */
  lemma UnlinkCall(s: State, t: nat, order: seq<nat>, place: seq<real>, bag: multiset<nat>, j: nat, wait: bool) returns (k: nat)
    requires Rests(s, order, place) && IdleWith(s, t, bag) && j < |order| && order[j] < |s.mem| && order[j] in bag
    requires wait ==> Bags(s.threads, order[j]) == 1 && NoneLeads(Nodes(s.mem), order[j])
    ensures var n := order[j];
            var s' := Called(s, t, LlUnlink(n, wait), k);
            Over(s, t, s', if wait then bag - multiset{n} else bag) && Rests(s', Remove(order, j), place) && LeftAs(s', n, wait)
  {
    hide At, Settled, CountOk, Remove, NoneLeads, Alone, Nothing;
    var m, h, n := Nodes(s.mem), HeldBy(s.threads, |s.mem|), order[j];
    var api, g := LlUnlink(n, wait), Solo(Step(s, Call(t, LlUnlink(n, wait))), t);
    HeldAtLeast(s, t, bag, n);
    WaitEndsIff(m, order, h, place, n);
    Begins(s, t, api, order, place, bag);
    assert Begin(api, bag) == Thread([], InUnlink(n, UStart, KUnlinked(n, wait, bag - multiset{n}))) by { EmptyQueue(); }
    var u := UnlinkListed(g, m, order, h, place, j, KUnlinked(n, wait, bag - multiset{n}));
    if wait {
      var m' := ReleaseAlone(g, u, |order| - 1, Remove(order, j), h, place, n, bag - multiset{n});
      k := Ends(s, t, api, bag, m', Remove(order, j), h[n := h[n] - 1], place, bag - multiset{n});
    } else {
      assert bag - multiset{n} + multiset{n} == bag;
      k := Ends(s, t, api, bag, u, Remove(order, j), h, place, bag);
    }
  }

  lemma EmptyQueue()
    ensures Nothing() == []
  {
  }

  /** ll_unlink of a node that is not on the list changes neither the list nor the references. */
  lemma UnlinkOffCall(s: State, t: nat, order: seq<nat>, place: seq<real>, bag: multiset<nat>, n: nat, wait: bool) returns (k: nat)
    requires Rests(s, order, place) && IdleWith(s, t, bag) && HEAD < n < |s.mem| && n in bag && n !in order
    ensures var s' := Called(s, t, LlUnlink(n, wait), k); Over(s, t, s', bag) && Rests(s', order, place)
  {
    hide At, Settled, CountOk, Alone, Nothing;
    var m, h := Nodes(s.mem), HeldBy(s.threads, |s.mem|);
    var api, uk := LlUnlink(n, wait), KUnlinked(n, wait, bag - multiset{n});
    Begins(s, t, api, order, place, bag);
    assert Begin(api, bag) == Thread([], InUnlink(n, UStart, uk)) by { EmptyQueue(); }
    var m' := UnlinkOff(Solo(Step(s, Call(t, api)), t), m, order, h, place, n, uk);
    assert bag - multiset{n} + multiset{n} == bag;
    k := Ends(s, t, api, bag, m', order, h, place, bag);
  }

  lemma UnlinkReleaseCall(s: State, t: nat, order: seq<nat>, place: seq<real>, bag: multiset<nat>, n: nat) returns (k: nat)
    requires Rests(s, order, place) && IdleWith(s, t, bag) && n in bag && Releasable(Nodes(s.mem), HeldBy(s.threads, |s.mem|), n)
    ensures var s' := Called(s, t, LlUnlinkRelease(n), k);
            Over(s, t, s', bag - multiset{n}) && Rests(s', order, place) && LeftAs(s', n, true)
  {
    hide At, Settled, CountOk, Alone, Nothing;
    var m, h := Nodes(s.mem), HeldBy(s.threads, |s.mem|);
    var api := LlUnlinkRelease(n);
    Begins(s, t, api, order, place, bag);
    assert Begin(api, bag) == Thread([], InRelease(n, false, RWait, KDone(bag - multiset{n}))) by { EmptyQueue(); }
    var m' := ReleaseAlone(Solo(Step(s, Call(t, api)), t), m, |order|, order, h, place, n, bag - multiset{n});
    k := Ends(s, t, api, bag, m', order, h[n := h[n] - 1], place, bag - multiset{n});
  }

  /** ll_unlink_robust: afterwards n is off the list and barred from it, and its caller still holds it. */
  lemma RobustCall(s: State, t: nat, order: seq<nat>, place: seq<real>, bag: multiset<nat>, n: nat) returns (k: nat)
    requires Rests(s, order, place) && IdleWith(s, t, bag) && HEAD < n < |s.mem| && n in bag && !Deleted(Nodes(s.mem), n)
    requires if n in order then Bags(s.threads, n) == 1 && NoneLeads(Nodes(s.mem), n) else !Nodes(s.mem)[n].succ.fl
    ensures var s' := Called(s, t, LlUnlinkRobust(n), k);
            && Over(s, t, s', bag) && InsertLocked(Nodes(s'.mem), n)
            && (n !in order ==> Rests(s', order, place))
            && (forall j :: 0 <= j < |order| && order[j] == n ==> Rests(s', Remove(order, j), place))
  {
    hide At, Settled, CountOk, Remove, NoneLeads, Alone, Nothing;
    var m, h := Nodes(s.mem), HeldBy(s.threads, |s.mem|);
    var api, rest, g := LlUnlinkRobust(n), bag - multiset{n}, Solo(Step(s, Call(t, LlUnlinkRobust(n))), t);
    assert rest + multiset{n} == bag;
    Begins(s, t, api, order, place, bag);
    assert Begin(api, bag) == Thread([], InRobust(n, rest, XLock(false))) by { EmptyQueue(); }
    ListedNode(m, order, place, n);
    if n !in order {
      RobustLocks(g, m, |order|, n, rest);
      LockRepresents(m, order, h, place, n);
      k := Ends(s, t, api, bag, SetSucc(m, n, Tag(NIL, true)), order, h, place, bag);
    } else {
      var j :| 0 <= j < |order| && order[j] == n;
      RobustUnlinks(g, m, |order|, n, rest);
      var r := RobustListed(g, m, order, h, place, j, rest);
      k := Ends(s, t, api, bag, r, Remove(order, j), h, place, bag);
      assert forall i :: 0 <= i < |order| && order[i] == n ==> i == j by { OnRing(m, order, place, j); }
    }
  }

  lemma RobustListed(g: Solo, m: seq<Node>, order: seq<nat>, held: seq<nat>, place: seq<real>, j: nat, rest: multiset<nat>)
    returns (r: seq<Node>)
    requires Represents(m, order, held, place) && j < |order| && order[j] < |m| && held[order[j]] == 1 && NoneLeads(m, order[j])
    requires At(g, Open(m, |order|), Thread([], InUnlink(order[j], UStart, KRobust(order[j], rest))))
    ensures At(g, Open(r, |order| - 1), Thread([], Idle(rest + multiset{order[j]}))) && |r| == |m|
    ensures Represents(r, Remove(order, j), held, place) && InsertLocked(r, order[j])
  {
    hide At, Settled, CountOk, Remove, NoneLeads, Nothing, ReleaseMem, Idles;
    var n := order[j];
    WaitEndsIff(m, order, held, place, n);
    var u := UnlinkListed(g, m, order, held, place, j, KRobust(n, rest));
    var p, q := u[n].pred.a, u[n].succ.a;
    ReleaseReady(u, Remove(order, j), held, place, n, true);
    IdlesValid(u, n, p, q);
    ReleaseRun(g, u, |order| - 1, n, p, q, true, KKeep(rest));
    r := ReleaseMem(u, n, p, q, true);
  }

  // ----- Waiting -----

  /** A thread that waits for the last reference to n does not get on while there is another one. */
  lemma WaitingStep(s: State, t: nat, n: nat, ins: bool, rk: ReleaseK)
    requires t < |s.threads| && s.threads[t] == Thread([], InRelease(n, ins, RWait, rk)) && ValidNode(s.mem, n) && s.mem[n].cnt > 1
    ensures Step(s, Run(t)) == s
  {
    EmptyQueue();
    assert s.threads[t := s.threads[t]] == s.threads;
  }

  /** A state that the thread cannot leave: the call is over neither before nor after it. */
  lemma {:induction false} NeverOver(s: State, t: nat, api: Api, k0: nat, k: nat, bag: multiset<nat>)
    requires t < |s.threads| && t < |Called(s, t, api, k0).threads|
    requires !Called(s, t, api, k0).threads[t].ctl.Idle? && Step(Called(s, t, api, k0), Run(t)) == Called(s, t, api, k0)
    ensures !Over(s, t, Called(s, t, api, k), bag)
  {
    hide Step, Begin, After, NextOp;
    if k < k0 {
      if Over(s, t, Called(s, t, api, k), bag) { StaysOver(s, t, api, k, k0 - k, bag); }
    } else {
      StaysThere(s, t, api, k0, k - k0);
    }
  }

  lemma {:induction false} StaysThere(s: State, t: nat, api: Api, k: nat, j: nat)
    requires Step(Called(s, t, api, k), Run(t)) == Called(s, t, api, k)
    ensures Called(s, t, api, k + j) == Called(s, t, api, k)
    decreases j
  {
    hide Step, Begin, After, NextOp;
    if j == 0 {
    } else {
      StaysThere(s, t, api, k, j - 1);
      assert Called(s, t, api, k + j) == Step(Called(s, t, api, k + (j - 1)), Run(t));
    }
  }

  /** Once the thread waits for a node with another reference its call never ends. */
  lemma Stalls(s: State, t: nat, api: Api, m: seq<Node>, z: int, n: nat, ins: bool, rk: ReleaseK, k: nat, bag: multiset<nat>)
    requires t < |s.threads| && Valid(m, n) && m[n].cnt > 1
    requires At(Solo(Step(s, Call(t, api)), t), Open(m, z), Thread([], InRelease(n, ins, RWait, rk)))
    ensures !Over(s, t, Called(s, t, api, k), bag)
  {
    hide Begin, Alone, Step;
    var g := Solo(Step(s, Call(t, api)), t);
    var k0: nat :| Shows(Alone(g.start, g.t, k0), g, Open(m, z), Thread([], InRelease(n, ins, RWait, rk)));
    WaitingStep(Called(s, t, api, k0), t, n, ins, rk);
    NeverOver(s, t, api, k0, k, bag);
  }

  /** ll_unlink with `wait` ends, when no other thread moves, only if its caller's is the last reference. */
  lemma UnlinkStalls(s: State, t: nat, order: seq<nat>, place: seq<real>, bag: multiset<nat>, j: nat, k: nat, bag': multiset<nat>)
    requires Rests(s, order, place) && IdleWith(s, t, bag) && j < |order| && order[j] < |s.mem| && order[j] in bag
    requires !(Bags(s.threads, order[j]) == 1 && NoneLeads(Nodes(s.mem), order[j]))
    ensures !Over(s, t, Called(s, t, LlUnlink(order[j], true), k), bag')
  {
    hide At, Settled, CountOk, Remove, NoneLeads, Alone, Nothing;
    var m, h, n := Nodes(s.mem), HeldBy(s.threads, |s.mem|), order[j];
    var api, rest, g := LlUnlink(n, true), bag - multiset{n}, Solo(Step(s, Call(t, LlUnlink(n, true))), t);
    HeldAtLeast(s, t, bag, n);
    WaitEndsIff(m, order, h, place, n);
    Begins(s, t, api, order, place, bag);
    EmptyQueue();
    var u := UnlinkListed(g, m, order, h, place, j, KUnlinked(n, true, rest));
    Stalls(s, t, api, u, |order| - 1, n, false, KDone(rest), k, bag');
  }

  lemma UnlinkReleaseStalls(s: State, t: nat, order: seq<nat>, place: seq<real>, bag: multiset<nat>, n: nat, k: nat, bag': multiset<nat>)
    requires Rests(s, order, place) && IdleWith(s, t, bag) && HEAD < n < |s.mem| && n in bag && s.mem[n].cnt > 1
    ensures !Over(s, t, Called(s, t, LlUnlinkRelease(n), k), bag')
  {
    hide At, Represents, Alone, Nothing;
    Begins(s, t, LlUnlinkRelease(n), order, place, bag);
    EmptyQueue();
    Stalls(s, t, LlUnlinkRelease(n), Nodes(s.mem), |order|, n, false, KDone(bag - multiset{n}), k, bag');
  }

  // ----- ll_pop_front and ll_pop_back -----

  /** The index of the node that is popped. */
  function EndAt(order: seq<nat>, front: bool): nat
    requires order != []
  {
    if front then 0 else |order| - 1
  }

  lemma PopFinds(g: Solo, m: seq<Node>, order: seq<nat>, held: seq<nat>, place: seq<real>, front: bool, wait: bool, bag: multiset<nat>)
    returns (e: nat)
    requires Represents(m, order, held, place)
    requires At(g, Open(m, |order|), Thread([], PopFrom(front, wait, HEAD, KPop(front, wait, bag))))
    ensures Valid(m, e) && e == if order == [] then HEAD else order[EndAt(order, front)]
    ensures At(g, Open(Bump(m, e, 1), |order|), RetPtr(KPop(front, wait, bag), Tag(e, false), Nothing()))
    ensures Represents(Bump(m, e, 1), order, held[e := held[e] + 1], place)
  {
    hide At, Settled, CountOk, Ring, RetPtr, Nothing, Bump, SuccChain, PredChain, ForwardChain, SuccMem, PredMem, SuccPath, PredPath;
    RingEnds(m, order, place);
    RingNeighbours(m, order, held, place, 0);
    RingNeighbours(m, order, held, place, |order|);
    e := Ring(order)[if front then 1 else |order|];
    if front {
      NextChain(m, order, held, place, HEAD);
      SuccRun(g, m, |order|, HEAD, [e], KPop(front, wait, bag));
    } else {
      PrevChain(m, order, held, place, HEAD);
      PredRun(g, m, |order|, HEAD, [e], KPop(front, wait, bag));
    }
    SuccOne(m, HEAD, e);
    PredOne(m, HEAD, e);
    HoldRepresents(m, order, held, place, e, 1);
  }

  /** ll_pop_front and ll_pop_back of an empty list. */
  lemma PopEmptyCall(s: State, t: nat, place: seq<real>, bag: multiset<nat>, front: bool, wait: bool) returns (k: nat)
    requires Rests(s, [], place) && IdleWith(s, t, bag)
    ensures var s' := Called(s, t, LlPop(front, wait), k); Over(s, t, s', bag) && Rests(s', [], place)
  {
    hide At, Settled, CountOk, Alone, Nothing, PopFrom, RetPtr, Bump;
    var m, h := Nodes(s.mem), HeldBy(s.threads, |s.mem|);
    var api, g := LlPop(front, wait), Solo(Step(s, Call(t, LlPop(front, wait))), t);
    Begins(s, t, api, [], place, bag);
    assert Begin(api, bag) == Thread([], PopFrom(front, wait, HEAD, KPop(front, wait, bag))) by { EmptyQueue(); }
    var e := PopFinds(g, m, [], h, place, front, wait, bag);
    PopReturns(g, Bump(m, HEAD, 1), 0, Tag(HEAD, false), front, wait, bag);
    BumpBack(m, HEAD);
    k := Ends(s, t, api, bag, m, [], h, place, bag);
  }

  /** ll_pop_front removes and returns the first node, ll_pop_back the last one; with `wait` the node is blank afterwards. */
  lemma PopCall(s: State, t: nat, order: seq<nat>, place: seq<real>, bag: multiset<nat>, front: bool, wait: bool) returns (k: nat)
    requires Rests(s, order, place) && IdleWith(s, t, bag) && order != [] && order[EndAt(order, front)] < |s.mem|
    requires wait ==> Bags(s.threads, order[EndAt(order, front)]) == 0 && NoneLeads(Nodes(s.mem), order[EndAt(order, front)])
    ensures var n := if front then order[0] else order[|order| - 1];
            var s' := Called(s, t, LlPop(front, wait), k);
            && Over(s, t, s', if wait then bag else bag + multiset{n})
            && Rests(s', if front then order[1..] else order[..|order| - 1], place) && LeftAs(s', n, wait)
  {
    hide At, Settled, CountOk, Alone, Nothing, PopFrom, RetPtr, Bump, Remove, NoneLeads;
    var m, h := Nodes(s.mem), HeldBy(s.threads, |s.mem|);
    var api, g := LlPop(front, wait), Solo(Step(s, Call(t, LlPop(front, wait))), t);
    Begins(s, t, api, order, place, bag);
    assert Begin(api, bag) == Thread([], PopFrom(front, wait, HEAD, KPop(front, wait, bag))) by { EmptyQueue(); }
    RemoveEnds(order);
    var m', h' := PopAlone(g, m, order, h, place, front, wait, bag);
    var n := order[EndAt(order, front)];
    k := Ends(s, t, api, bag, m', Remove(order, EndAt(order, front)), h', place, if wait then bag else bag + multiset{n});
  }

  lemma PopAlone(g: Solo, m: seq<Node>, order: seq<nat>, held: seq<nat>, place: seq<real>, front: bool, wait: bool, bag: multiset<nat>)
    returns (m': seq<Node>, held': seq<nat>)
    requires Represents(m, order, held, place) && order != [] && order[EndAt(order, front)] < |m|
    requires wait ==> held[order[EndAt(order, front)]] == 0 && NoneLeads(m, order[EndAt(order, front)])
    requires At(g, Open(m, |order|), Thread([], PopFrom(front, wait, HEAD, KPop(front, wait, bag))))
    ensures var n := order[EndAt(order, front)];
            && At(g, Open(m', |order| - 1), Thread([], Idle(if wait then bag else bag + multiset{n}))) && |m'| == |m| && n > HEAD
            && Represents(m', Remove(order, EndAt(order, front)), held', place)
            && held' == (if wait then held else held[n := held[n] + 1])
            && (if wait then m'[n] == Node(Tag(NIL, false), Tag(NIL, false), 0) else Deleted(m', n))
  {
    hide At, Settled, CountOk, Nothing, PopFrom, RetPtr, Bump, Remove, NoneLeads;
    var j := EndAt(order, front);
    var n := PopFinds(g, m, order, held, place, front, wait, bag);
    var m1, h1 := Bump(m, n, 1), held[n := held[n] + 1];
    OnRing(m, order, place, j);
    PopReturns(g, m1, |order|, Tag(n, false), front, wait, bag);
    m' := UnlinkListed(g, m1, order, h1, place, j, KPopped(n, front, wait, bag));
    held' := h1;
    if wait {
      BumpLeads(m, n);
      WaitEndsIff(m1, order, h1, place, n);
      m' := ReleaseAlone(g, m', |order| - 1, Remove(order, j), h1, place, n, bag);
      held' := held;
      assert h1[n := h1[n] - 1] == held;
    }
  }

  /** ll_pop_front and ll_pop_back with `wait` end only if nobody else refers to the node. */
  lemma PopStalls(s: State, t: nat, order: seq<nat>, place: seq<real>, bag: multiset<nat>, front: bool, k: nat, bag': multiset<nat>)
    requires Rests(s, order, place) && IdleWith(s, t, bag) && order != [] && order[EndAt(order, front)] < |s.mem|
    requires !(Bags(s.threads, order[EndAt(order, front)]) == 0 && NoneLeads(Nodes(s.mem), order[EndAt(order, front)]))
    ensures !Over(s, t, Called(s, t, LlPop(front, true), k), bag')
  {
    hide At, Settled, CountOk, Alone, Nothing, PopFrom, RetPtr, Bump, Remove, NoneLeads;
    var m, h, j := Nodes(s.mem), HeldBy(s.threads, |s.mem|), EndAt(order, front);
    var api, g := LlPop(front, true), Solo(Step(s, Call(t, LlPop(front, true))), t);
    Begins(s, t, api, order, place, bag);
    EmptyQueue();
    var n := PopFinds(g, m, order, h, place, front, true, bag);
    var m1, h1 := Bump(m, n, 1), h[n := h[n] + 1];
    OnRing(m, order, place, j);
    PopReturns(g, m1, |order|, Tag(n, false), front, true, bag);
    var u := UnlinkListed(g, m1, order, h1, place, j, KPopped(n, front, true, bag));
    BumpLeads(m, n);
    WaitEndsIff(m1, order, h1, place, n);
    Stalls(s, t, api, u, |order| - 1, n, false, KDone(bag), k, bag');
  }

  lemma BumpLeads(m: seq<Node>, n: nat)
    requires Valid(m, n)
    ensures NoneLeads(Bump(m, n, 1), n) <==> NoneLeads(m, n)
  {
    hide Bump;
    var m' := Bump(m, n, 1);
    assert forall x :: 0 <= x < |m| ==> m'[x].succ == m[x].succ && m'[x].pred == m[x].pred;
  }

  // ----- The ends of the list, and its start -----

  /** The initial state is the empty list. */
  lemma InitRests(nodes: nat, threads: nat)
    ensures Rests(Init(nodes, threads), [], seq(nodes + 2, _ => 0.0))
  {
    var s := Init(nodes, threads);
    var m := Nodes(s.mem);
    FreshCounts(m);
    forall x: nat ensures Bags(s.threads, x) == 0 { NoBags(s.threads, x); }
    assert HeldBy(s.threads, |s.mem|) == seq(|m|, _ => 0);
  }

  lemma {:induction false} NoBags(ts: seq<Thread>, x: nat)
    requires forall u :: 0 <= u < |ts| ==> ts[u] == Thread([], Idle(multiset{}))
    ensures Bags(ts, x) == 0
  {
    if ts == [] {
    } else {
      NoBags(ts[1..], x);
    }
  }

  /** ll_succ(HEAD) and ll_pred(HEAD) give the two ends of the list, or NULL if it is empty. */
  lemma EndsCall(s: State, t: nat, order: seq<nat>, place: seq<real>, bag: multiset<nat>) returns (first: nat, last: nat)
    requires Rests(s, order, place) && IdleWith(s, t, bag)
    ensures order != [] ==> Over(s, t, Called(s, t, LlSucc(HEAD), first), bag + multiset{order[0]})
    ensures order != [] ==> Over(s, t, Called(s, t, LlPred(HEAD), last), bag + multiset{order[|order| - 1]})
    ensures order == [] ==> Over(s, t, Called(s, t, LlSucc(HEAD), first), bag) && Over(s, t, Called(s, t, LlPred(HEAD), last), bag)
  {
    hide Rests, Over, Alone, Ring;
    RestsRepresents(s, order, place);
    var m := Nodes(s.mem);
    RingEnds(m, order, place);
    var e;
    first, e := SuccCall(s, t, order, place, bag, HEAD);
    assert Ring(order)[0] == HEAD && e == Element(Ring(order)[1]);
    last, e := PredCall(s, t, order, place, bag, HEAD);
    assert Ring(order)[|order| + 1] == HEAD && e == Element(Ring(order)[|order|]);
  }
}
