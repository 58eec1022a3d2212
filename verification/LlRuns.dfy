/**
 Runs of the list machine with one node beside the head and two threads that show where its guarantees end.
 A turn is one operation of a thread together with everything it queues.
 */
module LlRuns {
  import opened LlTypes
  import opened LlMachine
  import opened LlLedger
  import opened LlSafety
  import opened LlRelease

  const NODE := 2

  datatype Duo = Duo(head: Elem, node: Elem, size: int)

  function Mem(d: Duo): seq<Elem> { [Elem(EMPTY, EMPTY, 0, 0, 0, 0), d.head, d.node] }

  predicate Known(x: nat) { x == HEAD || x == NODE }

  function St(d: Duo, a: Thread, b: Thread): State { State(Mem(d), d.size, [a, b]) }

  // ----- Turns -----

  predicate Fits(m: Micro) {
    match m
    case Acq(n) => Known(n)
    case Rel(n, _) => Known(n)
    case Unlock(f) => Known(f.node)
    case Unflag(f) => Known(f.node)
    case Resize(_) => true
    case Returned(n) => Known(n)
  }

  /** The record of a memory with two nodes. */
  function Back(mem: seq<Elem>, size: int): Duo
    requires |mem| == 3
  {
    Duo(mem[HEAD], mem[NODE], size)
  }

  function Do(d: Duo, m: Micro): Duo {
    if Fits(m) then Back(ApplyMicro(Mem(d), m), d.size + if m.Resize? then m.d else 0) else d
  }

  predicate AllFit(q: seq<Micro>) { q == [] || (AllFit(q[..|q| - 1]) && Fits(q[|q| - 1])) }

  function Drain(d: Duo, q: seq<Micro>): Duo { if q == [] then d else Do(Drain(d, q[..|q| - 1]), q[|q| - 1]) }

  /** Draining follows the way queues are built. */
  lemma DrainLaws()
    ensures forall d {:trigger Drain(d, Nothing())} :: Drain(d, Nothing()) == d
    ensures AllFit(Nothing())
    ensures forall d, q, m {:trigger Drain(d, Then(q, m))} :: Drain(d, Then(q, m)) == Do(Drain(d, q), m)
    ensures forall q, m {:trigger AllFit(Then(q, m))} :: AllFit(Then(q, m)) == (AllFit(q) && Fits(m))
  {
    forall d, q, m ensures Drain(d, Then(q, m)) == Do(Drain(d, q), m) { assert Then(q, m)[..|q|] == q; }
    forall q, m ensures AllFit(Then(q, m)) == (AllFit(q) && Fits(m)) { assert Then(q, m)[..|q|] == q; }
  }

  function Perform(d: Duo, op: Op): Duo {
    if Known(Target(op)) then Back(Apply(Mem(d), op), d.size) else d
  }

  function Moved(d: Duo, c: Ctl): Thread {
    var op := NextOp(c);
    if Known(Target(op)) then After(c, Seen(Mem(d), op), Ok(Mem(d), op), if op.ReadCnt? then Mem(d)[op.n].cnt else 0)
    else Thread([], c)
  }

  predicate CanTurn(d: Duo, c: Ctl) { Known(Target(NextOp(c))) && AllFit(Moved(d, c).pend) }

  function Turn(d: Duo, c: Ctl): (Duo, Ctl) {
    (Drain(Perform(d, NextOp(c)), Moved(d, c).pend), Moved(d, c).ctl)
  }

  // ----- Turns are steps of the machine -----

  lemma DoIsMicro(d: Duo, m: Micro)
    requires Fits(m)
    ensures MicroEnabled(Mem(d), m) && Mem(Do(d, m)) == ApplyMicro(Mem(d), m)
    ensures Do(d, m).size == d.size + if m.Resize? then m.d else 0
  {
  }

  lemma PerformIsOp(d: Duo, c: Ctl)
    requires Known(Target(NextOp(c)))
    ensures ValidNode(Mem(d), Target(NextOp(c))) && Mem(Perform(d, NextOp(c))) == Apply(Mem(d), NextOp(c))
    ensures Perform(d, NextOp(c)).size == d.size
    ensures var op := NextOp(c);
            Moved(d, c) == After(c, Seen(Mem(d), op), Ok(Mem(d), op), if op.ReadCnt? then Mem(d)[op.n].cnt else 0)
  {
    hide NextOp, After;
  }

  lemma {:induction false} DrainReaches(d: Duo, q: seq<Micro>, c: Ctl, ts: seq<Thread>, t: nat)
    requires t < |ts| && AllFit(q) && Reachable(State(Mem(d), d.size, ts[t := Thread(q, c)]))
    ensures Reachable(State(Mem(Drain(d, q)), Drain(d, q).size, ts[t := Thread([], c)]))
    decreases |q|
  {
    hide Reachable, Mem, Do, Fits;
    if q == [] {
    } else {
      var s := State(Mem(d), d.size, ts[t := Thread(q, c)]);
      FirstOf(d, q);
      DoIsMicro(d, q[0]);
      ReachableStep(s, Run(t));
      assert ts[t := Thread(q, c)][t := Thread(q[1..], c)] == ts[t := Thread(q[1..], c)];
      DrainReaches(Do(d, q[0]), q[1..], c, ts, t);
    }
  }

  lemma {:induction false} FirstOf(d: Duo, q: seq<Micro>)
    requires q != [] && AllFit(q)
    ensures Fits(q[0]) && AllFit(q[1..]) && Drain(d, q) == Drain(Do(d, q[0]), q[1..])
  {
    hide Fits, Do;
    if |q| == 1 {
      assert q[..0] == [] && q[1..] == [];
    } else {
      FirstOf(d, q[..|q| - 1]);
      assert q[1..][..|q| - 2] == q[..|q| - 1][1..];
    }
  }

  lemma TurnReaches(d: Duo, c: Ctl, ts: seq<Thread>, t: nat)
    requires t < |ts| && ts[t] == Thread([], c) && CanTurn(d, c) && Reachable(State(Mem(d), d.size, ts))
    ensures var (d', c') := Turn(d, c); Reachable(State(Mem(d'), d'.size, ts[t := Thread([], c')]))
  {
    hide Reachable, Mem, NextOp, After, Perform, AllFit, Drain;
    PerformIsOp(d, c);
    ReachableStep(State(Mem(d), d.size, ts), Run(t));
    DrainReaches(Perform(d, NextOp(c)), Moved(d, c).pend, Moved(d, c).ctl, ts, t);
  }

  // ----- Pieces of runs -----

  function Link(a: nat): Ptr { Ptr(a, false, false) }
  function FlaggedLink(a: nat): Ptr { Ptr(a, true, false) }
  function LockedLink(a: nat): Ptr { Ptr(a, false, true) }
  function NewElem(succ: Ptr, pred: Ptr, cnt: int): Elem { Elem(succ, pred, cnt, 0, 0, 0) }

  const NONE: multiset<nat> := multiset{}
  const ONE: multiset<nat> := multiset{NODE}
  const INSERT := Ins(NODE, true, false, HEAD, NONE)
  const LOOK := KInsert(INSERT, ALook(HEAD))
  const LINKED := KInsert(INSERT, ALinked(HEAD, HEAD))
  const UNLINK := KUnlinked(NODE, false, NONE)
  const FIND := KUnlink(NODE, APred, UNLINK)
  const SKIP := KUnlink(NODE, ASuccP(HEAD), UNLINK)
  const REPAIR := KUnlink(NODE, APredI(HEAD), UNLINK)
  const TO_HEAD := Tag(HEAD, false)
  const TO_NODE := Tag(NODE, false)

  lemma Next0(d: Duo, c: Ctl, d': Duo, c': Ctl, b: Thread)
    requires Reachable(St(d, Thread([], c), b)) && CanTurn(d, c) && Turn(d, c) == (d', c')
    ensures Reachable(St(d', Thread([], c'), b))
  {
    hide Reachable, CanTurn, Turn, Mem;
    var ts := [Thread([], c), b];
    TurnReaches(d, c, ts, 0);
    assert ts[0 := Thread([], c')] == [Thread([], c'), b];
  }

  lemma Next1(d: Duo, c: Ctl, d': Duo, c': Ctl, a: Thread)
    requires Reachable(St(d, a, Thread([], c))) && CanTurn(d, c) && Turn(d, c) == (d', c')
    ensures Reachable(St(d', a, Thread([], c')))
  {
    hide Reachable, CanTurn, Turn, Mem;
    var ts := [a, Thread([], c)];
    TurnReaches(d, c, ts, 1);
    assert ts[1 := Thread([], c')] == [a, Thread([], c')];
  }

  /** An idle thread enters an operation and performs what that queues. */
  lemma CallReaches(d: Duo, bag: multiset<nat>, api: Api, ts: seq<Thread>, t: nat)
    requires t < |ts| && ts[t] == Thread([], Idle(bag)) && Reachable(State(Mem(d), d.size, ts))
    requires AllFit(Begin(api, bag).pend)
    ensures var d' := Drain(d, Begin(api, bag).pend);
            Reachable(State(Mem(d'), d'.size, ts[t := Thread([], Begin(api, bag).ctl)]))
  {
    hide Reachable, Mem, Begin, AllFit, Drain;
    ReachableStep(State(Mem(d), d.size, ts), Call(t, api));
    DrainReaches(d, Begin(api, bag).pend, Begin(api, bag).ctl, ts, t);
  }

  lemma Call0(d: Duo, bag: multiset<nat>, api: Api, d': Duo, c': Ctl, b: Thread)
    requires Reachable(St(d, Thread([], Idle(bag)), b)) && AllFit(Begin(api, bag).pend)
    requires Drain(d, Begin(api, bag).pend) == d' && Begin(api, bag).ctl == c'
    ensures Reachable(St(d', Thread([], c'), b))
  {
    hide Reachable, Mem, Begin, AllFit, Drain;
    var ts := [Thread([], Idle(bag)), b];
    CallReaches(d, bag, api, ts, 0);
    assert ts[0 := Thread([], c')] == [Thread([], c'), b];
  }

  lemma Call1(d: Duo, bag: multiset<nat>, api: Api, d': Duo, c': Ctl, a: Thread)
    requires Reachable(St(d, a, Thread([], Idle(bag)))) && AllFit(Begin(api, bag).pend)
    requires Drain(d, Begin(api, bag).pend) == d' && Begin(api, bag).ctl == c'
    ensures Reachable(St(d', a, Thread([], c')))
  {
    hide Reachable, Mem, Begin, AllFit, Drain;
    var ts := [a, Thread([], Idle(bag))];
    CallReaches(d, bag, api, ts, 1);
    assert ts[1 := Thread([], c')] == [a, Thread([], c')];
  }

  /** A thread inserts the node: it locks it and looks up its place, */
  lemma Looked(a: Thread, r: int, m: nat, c: nat, e: nat)
    requires Reachable(St(Duo(NewElem(Link(HEAD), Link(HEAD), 2), Elem(Link(NIL), Link(NIL), r, m, c, e), 0),
                          a, Thread([], InInsert(INSERT, ILock(false)))))
    ensures Reachable(St(Duo(NewElem(Link(HEAD), Link(HEAD), 3), Elem(FlaggedLink(NIL), Link(NIL), r + 1, m, c, e), 0),
                         a, Thread([], InInsert(INSERT, BWait(HEAD, HEAD)))))
  {
    hide Then, Nothing, Drain, AllFit, Reachable;
    DrainLaws();
    var d0 := Duo(NewElem(Link(HEAD), Link(HEAD), 2), Elem(Link(NIL), Link(NIL), r, m, c, e), 0);
    var c0 := InInsert(INSERT, ILock(false));
    var d1 := Duo(NewElem(Link(HEAD), Link(HEAD), 2), Elem(FlaggedLink(NIL), Link(NIL), r, m, c, e), 0);
    var c1 := InInsert(INSERT, IWait);
    Next1(d0, c0, d1, c1, a);
    var d2 := Duo(NewElem(Link(HEAD), Link(HEAD), 2), Elem(FlaggedLink(NIL), Link(NIL), r + 1, m, c, e), 0);
    var c2 := InSucc(HEAD, SStart, LOOK);
    Next1(d1, c1, d2, c2, a);
    var d3 := Duo(NewElem(Link(HEAD), Link(HEAD), 3), Elem(FlaggedLink(NIL), Link(NIL), r + 1, m, c, e), 0);
    var c3 := InSucc(HEAD, STest(TO_HEAD), LOOK);
    Next1(d2, c2, d3, c3, a);
    var d4 := Duo(NewElem(Link(HEAD), Link(HEAD), 3), Elem(FlaggedLink(NIL), Link(NIL), r + 1, m, c, e), 0);
    var c4 := InInsert(INSERT, BWait(HEAD, HEAD));
    Next1(d3, c3, d4, c4, a);
  }

  /** ... links it to its neighbours, */
  lemma Attached(a: Thread, r: int, m: nat, c: nat, e: nat)
    requires Reachable(St(Duo(NewElem(Link(HEAD), Link(HEAD), 3), Elem(FlaggedLink(NIL), Link(NIL), r + 1, m, c, e), 0),
                          a, Thread([], InInsert(INSERT, BWait(HEAD, HEAD)))))
    ensures Reachable(St(Duo(NewElem(Link(HEAD), Link(HEAD), 5), Elem(FlaggedLink(HEAD), Link(HEAD), r + 1, m, c, e), 0),
                         a, Thread([], InInsert(INSERT, BDeref(HEAD, HEAD)))))
  {
    hide Then, Nothing, Drain, AllFit, Reachable;
    DrainLaws();
    var d0 := Duo(NewElem(Link(HEAD), Link(HEAD), 3), Elem(FlaggedLink(NIL), Link(NIL), r + 1, m, c, e), 0);
    var c0 := InInsert(INSERT, BWait(HEAD, HEAD));
    var d1 := Duo(NewElem(Link(HEAD), Link(HEAD), 5), Elem(FlaggedLink(NIL), Link(NIL), r + 1, m, c, e), 0);
    var c1 := InInsert(INSERT, BSucc(HEAD, HEAD));
    Next1(d0, c0, d1, c1, a);
    var d2 := Duo(NewElem(Link(HEAD), Link(HEAD), 5), Elem(FlaggedLink(HEAD), Link(NIL), r + 1, m, c, e), 0);
    var c2 := InInsert(INSERT, BPred(HEAD, HEAD));
    Next1(d1, c1, d2, c2, a);
    var d3 := Duo(NewElem(Link(HEAD), Link(HEAD), 5), Elem(FlaggedLink(HEAD), Link(HEAD), r + 1, m, c, e), 0);
    var c3 := InInsert(INSERT, BDeref(HEAD, HEAD));
    Next1(d2, c2, d3, c3, a);
  }

  /** ... and its predecessor to it, */
  lemma LinkedIn(a: Thread, r: int, m: nat, c: nat, e: nat)
    requires Reachable(St(Duo(NewElem(Link(HEAD), Link(HEAD), 5), Elem(FlaggedLink(HEAD), Link(HEAD), r + 1, m, c, e), 0),
                          a, Thread([], InInsert(INSERT, BDeref(HEAD, HEAD)))))
    ensures Reachable(St(Duo(NewElem(Link(NODE), Link(HEAD), 4), Elem(FlaggedLink(HEAD), Link(HEAD), r + 2, m, c, e), 0),
                         a, Thread([], InPred(HEAD, PStart, LINKED))))
  {
    hide Then, Nothing, Drain, AllFit, Reachable;
    DrainLaws();
    var d0 := Duo(NewElem(Link(HEAD), Link(HEAD), 5), Elem(FlaggedLink(HEAD), Link(HEAD), r + 1, m, c, e), 0);
    var c0 := InInsert(INSERT, BDeref(HEAD, HEAD));
    var d1 := Duo(NewElem(Link(HEAD), Link(HEAD), 6), Elem(FlaggedLink(HEAD), Link(HEAD), r + 1, m, c, e), 0);
    var c1 := InInsert(INSERT, BTest(HEAD, HEAD, TO_HEAD));
    Next1(d0, c0, d1, c1, a);
    var d2 := Duo(NewElem(Link(HEAD), Link(HEAD), 6), Elem(FlaggedLink(HEAD), Link(HEAD), r + 1, m, c, e), 0);
    var c2 := InInsert(INSERT, BCas(HEAD, HEAD, TO_HEAD));
    Next1(d1, c1, d2, c2, a);
    var d3 := Duo(NewElem(LockedLink(NODE), Link(HEAD), 6), Elem(FlaggedLink(HEAD), Link(HEAD), r + 1, m, c, e), 0);
    var c3 := InInsert(INSERT, BCheck(HEAD, HEAD, TO_HEAD));
    Next1(d2, c2, d3, c3, a);
    var d4 := Duo(NewElem(Link(NODE), Link(HEAD), 4), Elem(FlaggedLink(HEAD), Link(HEAD), r + 2, m, c, e), 0);
    var c4 := InPred(HEAD, PStart, LINKED);
    Next1(d3, c3, d4, c4, a);
  }

  /** ... repairs the link back */
  lemma Repaired(a: Thread, r: int, m: nat, c: nat, e: nat)
    requires Reachable(St(Duo(NewElem(Link(NODE), Link(HEAD), 4), Elem(FlaggedLink(HEAD), Link(HEAD), r + 2, m, c, e), 0),
                          a, Thread([], InPred(HEAD, PStart, LINKED))))
    ensures Reachable(St(Duo(NewElem(Link(NODE), Link(NODE), 3), Elem(FlaggedLink(HEAD), Link(HEAD), r + 4, m, c, e), 0),
                         a, Thread([], InSucc(NODE, SStart, KPred(1, TO_NODE, LINKED)))))
  {
    hide Then, Nothing, Drain, AllFit, Reachable;
    DrainLaws();
    var d0 := Duo(NewElem(Link(NODE), Link(HEAD), 4), Elem(FlaggedLink(HEAD), Link(HEAD), r + 2, m, c, e), 0);
    var c0 := InPred(HEAD, PStart, LINKED);
    var d1 := Duo(NewElem(Link(NODE), Link(HEAD), 5), Elem(FlaggedLink(HEAD), Link(HEAD), r + 2, m, c, e), 0);
    var c1 := InSucc(HEAD, SStart, KPred(1, TO_HEAD, LINKED));
    Next1(d0, c0, d1, c1, a);
    var d2 := Duo(NewElem(Link(NODE), Link(HEAD), 5), Elem(FlaggedLink(HEAD), Link(HEAD), r + 3, m, c, e), 0);
    var c2 := InSucc(HEAD, STest(TO_NODE), KPred(1, TO_HEAD, LINKED));
    Next1(d1, c1, d2, c2, a);
    var d3 := Duo(NewElem(Link(NODE), Link(HEAD), 5), Elem(FlaggedLink(HEAD), Link(HEAD), r + 3, m, c, e), 0);
    var c3 := InPred(HEAD, PCas(TO_HEAD, TO_NODE), LINKED);
    Next1(d2, c2, d3, c3, a);
    var d4 := Duo(NewElem(Link(NODE), Link(NODE), 3), Elem(FlaggedLink(HEAD), Link(HEAD), r + 4, m, c, e), 0);
    var c4 := InSucc(NODE, SStart, KPred(1, TO_NODE, LINKED));
    Next1(d3, c3, d4, c4, a);
  }

  /** ... and is done. */
  lemma Inserted(a: Thread, r: int, m: nat, c: nat, e: nat)
    requires Reachable(St(Duo(NewElem(Link(NODE), Link(NODE), 3), Elem(FlaggedLink(HEAD), Link(HEAD), r + 4, m, c, e), 0),
                          a, Thread([], InSucc(NODE, SStart, KPred(1, TO_NODE, LINKED)))))
    ensures Reachable(St(Duo(NewElem(Link(NODE), Link(NODE), 2), Elem(Link(HEAD), Link(HEAD), r + 2, m, c, e), 1),
                         a, Thread([], Idle(NONE))))
  {
    hide Then, Nothing, Drain, AllFit, Reachable;
    DrainLaws();
    var d0 := Duo(NewElem(Link(NODE), Link(NODE), 3), Elem(FlaggedLink(HEAD), Link(HEAD), r + 4, m, c, e), 0);
    var c0 := InSucc(NODE, SStart, KPred(1, TO_NODE, LINKED));
    var d1 := Duo(NewElem(Link(NODE), Link(NODE), 4), Elem(FlaggedLink(HEAD), Link(HEAD), r + 4, m, c, e), 0);
    var c1 := InSucc(NODE, STest(Tag(1, true)), KPred(1, TO_NODE, LINKED));
    Next1(d0, c0, d1, c1, a);
    var d2 := Duo(NewElem(Link(NODE), Link(NODE), 3), Elem(FlaggedLink(HEAD), Link(HEAD), r + 4, m, c, e), 0);
    var c2 := InPred(HEAD, PTest(TO_NODE), LINKED);
    Next1(d1, c1, d2, c2, a);
    var d3 := Duo(NewElem(Link(NODE), Link(NODE), 3), Elem(FlaggedLink(HEAD), Link(HEAD), r + 4, m, c, e), 0);
    var c3 := InPred(HEAD, PLast(TO_NODE), LINKED);
    Next1(d2, c2, d3, c3, a);
    InsertEnds(a, r, m, c, e);
  }

  lemma InsertEnds(a: Thread, r: int, m: nat, c: nat, e: nat)
    requires Reachable(St(Duo(NewElem(Link(NODE), Link(NODE), 3), Elem(FlaggedLink(HEAD), Link(HEAD), r + 4, m, c, e), 0),
                          a, Thread([], InPred(HEAD, PLast(TO_NODE), LINKED))))
    ensures Reachable(St(Duo(NewElem(Link(NODE), Link(NODE), 2), Elem(Link(HEAD), Link(HEAD), r + 2, m, c, e), 1),
                         a, Thread([], Idle(NONE))))
  {
    hide Then, Nothing, Drain, AllFit, Reachable;
    DrainLaws();
    var d0 := Duo(NewElem(Link(NODE), Link(NODE), 3), Elem(FlaggedLink(HEAD), Link(HEAD), r + 4, m, c, e), 0);
    var c0 := InPred(HEAD, PLast(TO_NODE), LINKED);
    var d1 := Duo(NewElem(Link(NODE), Link(NODE), 2), Elem(Link(HEAD), Link(HEAD), r + 2, m, c, e), 1);
    var c1 := Idle(NONE);
    Next1(d0, c0, d1, c1, a);
  }

  /** A thread unlinks the node: it finds the predecessor */
  lemma Found(a: Thread, r: int, m: nat, c: nat, e: nat)
    requires Reachable(St(Duo(NewElem(Link(NODE), Link(NODE), 2), Elem(Link(HEAD), Link(HEAD), r + 3, m, c, e), 1),
                          a, Thread([], InUnlink(NODE, UStart, UNLINK))))
    ensures Reachable(St(Duo(NewElem(Link(NODE), Link(NODE), 3), Elem(Link(HEAD), Link(HEAD), r + 3, m, c, e), 1),
                         a, Thread([], InPred(NODE, PLast(TO_HEAD), FIND))))
  {
    hide Then, Nothing, Drain, AllFit, Reachable;
    DrainLaws();
    var d0 := Duo(NewElem(Link(NODE), Link(NODE), 2), Elem(Link(HEAD), Link(HEAD), r + 3, m, c, e), 1);
    var c0 := InUnlink(NODE, UStart, UNLINK);
    var d1 := Duo(NewElem(Link(NODE), Link(NODE), 2), Elem(Link(HEAD), Link(HEAD), r + 3, m, c, e), 1);
    var c1 := InUnlink(NODE, USpin, UNLINK);
    Next1(d0, c0, d1, c1, a);
    var d2 := Duo(NewElem(Link(NODE), Link(NODE), 2), Elem(Link(HEAD), Link(HEAD), r + 3, m, c, e), 1);
    var c2 := InPred(NODE, PStart, FIND);
    Next1(d1, c1, d2, c2, a);
    var d3 := Duo(NewElem(Link(NODE), Link(NODE), 3), Elem(Link(HEAD), Link(HEAD), r + 3, m, c, e), 1);
    var c3 := InSucc(HEAD, SStart, KPred(2, TO_HEAD, FIND));
    Next1(d2, c2, d3, c3, a);
    var d4 := Duo(NewElem(Link(NODE), Link(NODE), 3), Elem(Link(HEAD), Link(HEAD), r + 4, m, c, e), 1);
    var c4 := InSucc(HEAD, STest(TO_NODE), KPred(2, TO_HEAD, FIND));
    Next1(d3, c3, d4, c4, a);
    var d5 := Duo(NewElem(Link(NODE), Link(NODE), 3), Elem(Link(HEAD), Link(HEAD), r + 3, m, c, e), 1);
    var c5 := InPred(NODE, PTest(TO_HEAD), FIND);
    Next1(d4, c4, d5, c5, a);
    var d6 := Duo(NewElem(Link(NODE), Link(NODE), 3), Elem(Link(HEAD), Link(HEAD), r + 3, m, c, e), 1);
    var c6 := InPred(NODE, PLast(TO_HEAD), FIND);
    Next1(d5, c5, d6, c6, a);
  }

  /** ... sets the deletion mark, */
  lemma SetMark(a: Thread, r: int, m: nat, c: nat, e: nat)
    requires Reachable(St(Duo(NewElem(Link(NODE), Link(NODE), 3), Elem(Link(HEAD), Link(HEAD), r + 3, m, c, e), 1),
                          a, Thread([], InPred(NODE, PLast(TO_HEAD), FIND))))
    ensures Reachable(St(Duo(NewElem(Link(NODE), Link(NODE), 3), Elem(Link(HEAD), FlaggedLink(HEAD), r + 3, m + 1, c, e), 1),
                         a, Thread([], InSucc(HEAD, SStart, SKIP))))
  {
    hide Then, Nothing, Drain, AllFit, Reachable;
    DrainLaws();
    var d0 := Duo(NewElem(Link(NODE), Link(NODE), 3), Elem(Link(HEAD), Link(HEAD), r + 3, m, c, e), 1);
    var c0 := InPred(NODE, PLast(TO_HEAD), FIND);
    var d1 := Duo(NewElem(Link(NODE), Link(NODE), 3), Elem(Link(HEAD), Link(HEAD), r + 3, m, c, e), 1);
    var c1 := InUnlink(NODE, ULock(1), UNLINK);
    Next1(d0, c0, d1, c1, a);
    var d2 := Duo(NewElem(LockedLink(NODE), Link(NODE), 3), Elem(Link(HEAD), Link(HEAD), r + 3, m, c, e), 1);
    var c2 := InUnlink(NODE, UMark(1), UNLINK);
    Next1(d1, c1, d2, c2, a);
    var d3 := Duo(NewElem(Link(NODE), Link(NODE), 3), Elem(Link(HEAD), FlaggedLink(HEAD), r + 3, m + 1, c, e), 1);
    var c3 := InSucc(HEAD, SStart, SKIP);
    Next1(d2, c2, d3, c3, a);
  }

  /** ... takes the node out of the forward links */
  lemma Skipped(a: Thread)
    requires Reachable(St(Duo(NewElem(Link(NODE), Link(NODE), 3), Elem(Link(HEAD), FlaggedLink(HEAD), 3, 1, 0, 0), 1),
                          a, Thread([], InSucc(HEAD, SStart, SKIP))))
    ensures Reachable(St(Duo(NewElem(Link(HEAD), Link(NODE), 3), Elem(Link(HEAD), FlaggedLink(HEAD), 2, 1, 0, 0), 0),
                         a, Thread([], InSucc(NODE, SStart, KUnlink(2, ASucc, UNLINK)))))
  {
    hide Then, Nothing, Drain, AllFit, Reachable;
    DrainLaws();
    var d0 := Duo(NewElem(Link(NODE), Link(NODE), 3), Elem(Link(HEAD), FlaggedLink(HEAD), 3, 1, 0, 0), 1);
    var c0 := InSucc(HEAD, SStart, SKIP);
    var d1 := Duo(NewElem(Link(NODE), Link(NODE), 3), Elem(Link(HEAD), FlaggedLink(HEAD), 4, 1, 0, 0), 1);
    var c1 := InSucc(HEAD, STest(TO_NODE), SKIP);
    Next1(d0, c0, d1, c1, a);
    var d2 := Duo(NewElem(Link(NODE), Link(NODE), 3), Elem(Link(HEAD), FlaggedLink(HEAD), 4, 1, 0, 0), 1);
    var c2 := InSucc(HEAD, SNext(TO_NODE), SKIP);
    Next1(d1, c1, d2, c2, a);
    var d3 := Duo(NewElem(Link(NODE), Link(NODE), 4), Elem(Link(HEAD), FlaggedLink(HEAD), 4, 1, 0, 0), 1);
    var c3 := InSucc(HEAD, SCas(TO_NODE, TO_HEAD), SKIP);
    Next1(d2, c2, d3, c3, a);
    var d4 := Duo(NewElem(Link(HEAD), Link(NODE), 5), Elem(Link(HEAD), FlaggedLink(HEAD), 2, 1, 0, 0), 1);
    var c4 := InSucc(HEAD, STest(TO_HEAD), SKIP);
    Next1(d3, c3, d4, c4, a);
    var d5 := Duo(NewElem(Link(HEAD), Link(NODE), 3), Elem(Link(HEAD), FlaggedLink(HEAD), 2, 1, 0, 0), 0);
    var c5 := InSucc(NODE, SStart, KUnlink(2, ASucc, UNLINK));
    Next1(d4, c4, d5, c5, a);
  }

  /** ... looks for links back to it */
  lemma Walked(a: Thread)
    requires Reachable(St(Duo(NewElem(Link(HEAD), Link(NODE), 3), Elem(Link(HEAD), FlaggedLink(HEAD), 2, 1, 0, 0), 0),
                          a, Thread([], InSucc(NODE, SStart, KUnlink(2, ASucc, UNLINK)))))
    ensures Reachable(St(Duo(NewElem(Link(HEAD), Link(NODE), 4), Elem(Link(HEAD), FlaggedLink(HEAD), 3, 1, 0, 0), 0),
                         a, Thread([], InSucc(NODE, SStart, KPred(1, TO_NODE, REPAIR)))))
  {
    hide Then, Nothing, Drain, AllFit, Reachable;
    DrainLaws();
    var d0 := Duo(NewElem(Link(HEAD), Link(NODE), 3), Elem(Link(HEAD), FlaggedLink(HEAD), 2, 1, 0, 0), 0);
    var c0 := InSucc(NODE, SStart, KUnlink(2, ASucc, UNLINK));
    var d1 := Duo(NewElem(Link(HEAD), Link(NODE), 4), Elem(Link(HEAD), FlaggedLink(HEAD), 2, 1, 0, 0), 0);
    var c1 := InSucc(NODE, STest(TO_HEAD), KUnlink(2, ASucc, UNLINK));
    Next1(d0, c0, d1, c1, a);
    var d2 := Duo(NewElem(Link(HEAD), Link(NODE), 4), Elem(Link(HEAD), FlaggedLink(HEAD), 2, 1, 0, 0), 0);
    var c2 := InUnlink(NODE, ULoop(1), UNLINK);
    Next1(d1, c1, d2, c2, a);
    var d3 := Duo(NewElem(Link(HEAD), Link(NODE), 4), Elem(Link(HEAD), FlaggedLink(HEAD), 2, 1, 0, 0), 0);
    var c3 := InUnlink(NODE, UPeek(1), UNLINK);
    Next1(d2, c2, d3, c3, a);
    var d4 := Duo(NewElem(Link(HEAD), Link(NODE), 4), Elem(Link(HEAD), FlaggedLink(HEAD), 2, 1, 0, 0), 0);
    var c4 := InPred(HEAD, PStart, REPAIR);
    Next1(d3, c3, d4, c4, a);
    var d5 := Duo(NewElem(Link(HEAD), Link(NODE), 4), Elem(Link(HEAD), FlaggedLink(HEAD), 3, 1, 0, 0), 0);
    var c5 := InSucc(NODE, SStart, KPred(1, TO_NODE, REPAIR));
    Next1(d4, c4, d5, c5, a);
  }

  /** ... repairs the one it finds */
  lemma Repointed(a: Thread)
    requires Reachable(St(Duo(NewElem(Link(HEAD), Link(NODE), 4), Elem(Link(HEAD), FlaggedLink(HEAD), 3, 1, 0, 0), 0),
                          a, Thread([], InSucc(NODE, SStart, KPred(1, TO_NODE, REPAIR)))))
    ensures Reachable(St(Duo(NewElem(Link(HEAD), Link(HEAD), 6), Elem(Link(HEAD), FlaggedLink(HEAD), 1, 1, 0, 0), 0),
                         a, Thread([], InPred(HEAD, PTest(Tag(1, true)), REPAIR))))
  {
    hide Then, Nothing, Drain, AllFit, Reachable;
    DrainLaws();
    var d0 := Duo(NewElem(Link(HEAD), Link(NODE), 4), Elem(Link(HEAD), FlaggedLink(HEAD), 3, 1, 0, 0), 0);
    var c0 := InSucc(NODE, SStart, KPred(1, TO_NODE, REPAIR));
    var d1 := Duo(NewElem(Link(HEAD), Link(NODE), 5), Elem(Link(HEAD), FlaggedLink(HEAD), 3, 1, 0, 0), 0);
    var c1 := InSucc(NODE, STest(TO_HEAD), KPred(1, TO_NODE, REPAIR));
    Next1(d0, c0, d1, c1, a);
    var d2 := Duo(NewElem(Link(HEAD), Link(NODE), 4), Elem(Link(HEAD), FlaggedLink(HEAD), 3, 1, 0, 0), 0);
    var c2 := InPred(HEAD, PTest(TO_NODE), REPAIR);
    Next1(d1, c1, d2, c2, a);
    var d3 := Duo(NewElem(Link(HEAD), Link(NODE), 4), Elem(Link(HEAD), FlaggedLink(HEAD), 3, 1, 0, 0), 0);
    var c3 := InPred(HEAD, PSkip(TO_NODE), REPAIR);
    Next1(d2, c2, d3, c3, a);
    var d4 := Duo(NewElem(Link(HEAD), Link(NODE), 5), Elem(Link(HEAD), FlaggedLink(HEAD), 3, 1, 0, 0), 0);
    var c4 := InPred(HEAD, PSkipCas(TO_NODE, Tag(1, true)), REPAIR);
    Next1(d3, c3, d4, c4, a);
    var d5 := Duo(NewElem(Link(HEAD), Link(HEAD), 6), Elem(Link(HEAD), FlaggedLink(HEAD), 1, 1, 0, 0), 0);
    var c5 := InPred(HEAD, PTest(Tag(1, true)), REPAIR);
    Next1(d4, c4, d5, c5, a);
  }

  /** ... and reports its success. */
  lemma Unlinked(a: Thread)
    requires Reachable(St(Duo(NewElem(Link(HEAD), Link(HEAD), 6), Elem(Link(HEAD), FlaggedLink(HEAD), 1, 1, 0, 0), 0),
                          a, Thread([], InPred(HEAD, PTest(Tag(1, true)), REPAIR))))
    ensures Reachable(St(Duo(NewElem(Link(HEAD), Link(HEAD), 4), Elem(Link(HEAD), FlaggedLink(HEAD), 1, 1, 0, 1), 0),
                         a, Thread([], Idle(ONE))))
  {
    hide Then, Nothing, Drain, AllFit, Reachable;
    DrainLaws();
    assert NONE + multiset{NODE} == ONE;
    var d0 := Duo(NewElem(Link(HEAD), Link(HEAD), 6), Elem(Link(HEAD), FlaggedLink(HEAD), 1, 1, 0, 0), 0);
    var c0 := InPred(HEAD, PTest(Tag(1, true)), REPAIR);
    var d1 := Duo(NewElem(Link(HEAD), Link(HEAD), 6), Elem(Link(HEAD), FlaggedLink(HEAD), 1, 1, 0, 0), 0);
    var c1 := InPred(HEAD, PLast(Tag(1, true)), REPAIR);
    Next1(d0, c0, d1, c1, a);
    var d2 := Duo(NewElem(Link(HEAD), Link(HEAD), 4), Elem(Link(HEAD), FlaggedLink(HEAD), 1, 1, 0, 1), 0);
    var c2 := Idle(ONE);
    Next1(d1, c1, d2, c2, a);
  }

  /** The release goes on to its end, while another thread holds a reference. */
  lemma Released(a: Thread)
    requires Reachable(St(Duo(NewElem(Link(HEAD), Link(HEAD), 4), Elem(Link(HEAD), FlaggedLink(HEAD), 2, 1, 0, 1), 0),
                          a, Thread([], InRelease(NODE, false, RLoadS, KDone(NONE)))))
    ensures Reachable(St(Duo(NewElem(Link(HEAD), Link(HEAD), 2), Elem(Link(NIL), Link(NIL), 1, 1, 1, 1), 0),
                         a, Thread([], Idle(NONE))))
  {
    hide Then, Nothing, Drain, AllFit, Reachable;
    DrainLaws();
    var d0 := Duo(NewElem(Link(HEAD), Link(HEAD), 4), Elem(Link(HEAD), FlaggedLink(HEAD), 2, 1, 0, 1), 0);
    var c0 := InRelease(NODE, false, RLoadS, KDone(NONE));
    var d1 := Duo(NewElem(Link(HEAD), Link(HEAD), 4), Elem(Link(HEAD), FlaggedLink(HEAD), 2, 1, 0, 1), 0);
    var c1 := InRelease(NODE, false, RLoadP(1), KDone(NONE));
    Next1(d0, c0, d1, c1, a);
    var d2 := Duo(NewElem(Link(HEAD), Link(HEAD), 4), Elem(Link(HEAD), FlaggedLink(HEAD), 2, 1, 0, 1), 0);
    var c2 := InRelease(NODE, false, RCasS(HEAD, HEAD), KDone(NONE));
    Next1(d1, c1, d2, c2, a);
    var d3 := Duo(NewElem(Link(HEAD), Link(HEAD), 3), Elem(Link(NIL), FlaggedLink(HEAD), 2, 1, 0, 1), 0);
    var c3 := InRelease(NODE, false, RCasP(1), KDone(NONE));
    Next1(d2, c2, d3, c3, a);
    var d4 := Duo(NewElem(Link(HEAD), Link(HEAD), 2), Elem(Link(NIL), Link(NIL), 1, 1, 1, 1), 0);
    var c4 := Idle(NONE);
    Next1(d3, c3, d4, c4, a);
  }

  /** A release that passed its wait too early meets the node unlinked once more, and clears the mark. */
  lemma ClearedMark(b: Thread, r: int, m: nat, c: nat, e: nat)
    requires Reachable(St(Duo(NewElem(Link(NODE), Link(NODE), 3), Elem(Link(HEAD), FlaggedLink(HEAD), r + 3, m + 1, c, e), 1),
                          Thread([], InRelease(NODE, false, RLoadS, KDone(NONE))), b))
    ensures Reachable(St(Duo(NewElem(Link(NODE), Link(NODE), 1), Elem(Link(NIL), Link(NIL), r + 2, m + 1, c + 1, e), 1),
                         Thread([], Idle(NONE)), b))
  {
    hide Then, Nothing, Drain, AllFit, Reachable;
    DrainLaws();
    var d0 := Duo(NewElem(Link(NODE), Link(NODE), 3), Elem(Link(HEAD), FlaggedLink(HEAD), r + 3, m + 1, c, e), 1);
    var c0 := InRelease(NODE, false, RLoadS, KDone(NONE));
    var d1 := Duo(NewElem(Link(NODE), Link(NODE), 3), Elem(Link(HEAD), FlaggedLink(HEAD), r + 3, m + 1, c, e), 1);
    var c1 := InRelease(NODE, false, RLoadP(1), KDone(NONE));
    Next0(d0, c0, d1, c1, b);
    var d2 := Duo(NewElem(Link(NODE), Link(NODE), 3), Elem(Link(HEAD), FlaggedLink(HEAD), r + 3, m + 1, c, e), 1);
    var c2 := InRelease(NODE, false, RCasS(HEAD, HEAD), KDone(NONE));
    Next0(d1, c1, d2, c2, b);
    var d3 := Duo(NewElem(Link(NODE), Link(NODE), 2), Elem(Link(NIL), FlaggedLink(HEAD), r + 3, m + 1, c, e), 1);
    var c3 := InRelease(NODE, false, RCasP(1), KDone(NONE));
    Next0(d2, c2, d3, c3, b);
    var d4 := Duo(NewElem(Link(NODE), Link(NODE), 1), Elem(Link(NIL), Link(NIL), r + 2, m + 1, c + 1, e), 1);
    var c4 := Idle(NONE);
    Next0(d3, c3, d4, c4, b);
  }

  /** A thread inserts the node, takes a reference to it and unlinks it up to the deletion mark. */
  lemma InsertedAndMarked(a: Thread, r: int, m: nat, c: nat, e: nat)
    requires Reachable(St(Duo(NewElem(Link(HEAD), Link(HEAD), 2), Elem(Link(NIL), Link(NIL), r, m, c, e), 0),
                          a, Thread([], Idle(NONE))))
    ensures Reachable(St(Duo(NewElem(Link(NODE), Link(NODE), 3), Elem(Link(HEAD), FlaggedLink(HEAD), r + 3, m + 1, c, e), 1),
                         a, Thread([], InSucc(HEAD, SStart, SKIP))))
  {
    hide Then, Nothing, Drain, AllFit, Reachable;
    DrainLaws();
    var d0 := Duo(NewElem(Link(HEAD), Link(HEAD), 2), Elem(Link(NIL), Link(NIL), r, m, c, e), 0);
    Call1(d0, NONE, LlInsert(NODE, true, false, HEAD, false), d0, InInsert(INSERT, ILock(false)), a);
    Looked(a, r, m, c, e);
    Attached(a, r, m, c, e);
    LinkedIn(a, r, m, c, e);
    Repaired(a, r, m, c, e);
    Inserted(a, r, m, c, e);
    var d1 := Duo(NewElem(Link(NODE), Link(NODE), 2), Elem(Link(HEAD), Link(HEAD), r + 2, m, c, e), 1);
    var d2 := Duo(NewElem(Link(NODE), Link(NODE), 2), Elem(Link(HEAD), Link(HEAD), r + 3, m, c, e), 1);
    assert NONE + multiset{NODE} == ONE && ONE - multiset{NODE} == NONE;
    Call1(d1, NONE, LlRef(NODE), d2, Idle(ONE), a);
    Call1(d2, ONE, LlUnlink(NODE, false), d2, InUnlink(NODE, UStart, UNLINK), a);
    Found(a, r, m, c, e);
    SetMark(a, r, m, c, e);
  }

  const IDLE := Thread([], Idle(NONE))
  const START := Duo(NewElem(Link(HEAD), Link(HEAD), 2), NewElem(Link(NIL), Link(NIL), 0), 0)

  lemma Started()
    ensures Reachable(St(START, IDLE, IDLE))
  {
    var s := Init(1, 2);
    assert s == Exec(s, []);
    assert s.mem == Mem(START) && s.threads == [IDLE, IDLE];
  }

  const WAITING := InRelease(NODE, false, RWait, KDone(NONE))
  const WAITED := InRelease(NODE, false, RLoadS, KDone(NONE))

  /**
   A release of a node that was never unlinked, begun before the node is inserted, clears the mark of the
   next unlink before that unlink has returned: there are more releases than successes.
   */
  lemma ReleaseWithoutUnlink() returns (s: State)
    ensures Reachable(s) && ValidNode(s.mem, NODE) && s.mem[NODE].clears == 1 && s.mem[NODE].rets == 0
  {
    hide Then, Nothing, Drain, AllFit, Reachable;
    DrainLaws();
    Started();
    var d1 := Duo(NewElem(Link(HEAD), Link(HEAD), 2), NewElem(Link(NIL), Link(NIL), 1), 0);
    assert NONE + multiset{NODE} == ONE && ONE - multiset{NODE} == NONE;
    Call0(START, NONE, LlRef(NODE), d1, Idle(ONE), IDLE);
    Call0(d1, ONE, LlUnlinkRelease(NODE), d1, WAITING, IDLE);
    Next0(d1, WAITING, d1, WAITED, IDLE);
    InsertedAndMarked(Thread([], WAITED), 1, 0, 0, 0);
    var b := Thread([], InSucc(HEAD, SStart, SKIP));
    ClearedMark(b, 1, 0, 0, 0);
    s := St(Duo(NewElem(Link(NODE), Link(NODE), 1), Elem(Link(NIL), Link(NIL), 3, 1, 1, 0), 1), IDLE, b);
  }

  /** A thread inserts and unlinks the node and begins its release, which sees no other reference. */
  lemma UnlinkedAndWaited()
    ensures Reachable(St(Duo(NewElem(Link(HEAD), Link(HEAD), 4), Elem(Link(HEAD), FlaggedLink(HEAD), 1, 1, 0, 1), 0),
                         IDLE, Thread([], WAITED)))
  {
    hide Then, Nothing, Drain, AllFit, Reachable;
    DrainLaws();
    Started();
    InsertedAndMarked(IDLE, 0, 0, 0, 0);
    Skipped(IDLE);
    Walked(IDLE);
    Repointed(IDLE);
    Unlinked(IDLE);
    var d := Duo(NewElem(Link(HEAD), Link(HEAD), 4), Elem(Link(HEAD), FlaggedLink(HEAD), 1, 1, 0, 1), 0);
    assert ONE - multiset{NODE} == NONE;
    Call1(d, ONE, LlUnlinkRelease(NODE), d, WAITING, IDLE);
    Next1(d, WAITING, d, WAITED, IDLE);
  }

  /** A second release of the same unlinked node, begun while the first goes on, has the same effect after a reinsertion. */
  lemma ReleasedTwice() returns (s: State)
    ensures Reachable(s) && ValidNode(s.mem, NODE) && s.mem[NODE].clears == 2 && s.mem[NODE].rets == 1
  {
    hide Then, Nothing, Drain, AllFit, Reachable;
    DrainLaws();
    UnlinkedAndWaited();
    var d1 := Duo(NewElem(Link(HEAD), Link(HEAD), 4), Elem(Link(HEAD), FlaggedLink(HEAD), 1, 1, 0, 1), 0);
    var d2 := Duo(NewElem(Link(HEAD), Link(HEAD), 4), Elem(Link(HEAD), FlaggedLink(HEAD), 2, 1, 0, 1), 0);
    var d3 := Duo(NewElem(Link(HEAD), Link(HEAD), 2), Elem(Link(NIL), Link(NIL), 1, 1, 1, 1), 0);
    assert NONE + multiset{NODE} == ONE && ONE - multiset{NODE} == NONE;
    Call0(d1, NONE, LlRef(NODE), d2, Idle(ONE), Thread([], WAITED));
    Call0(d2, ONE, LlUnlinkRelease(NODE), d2, WAITING, Thread([], WAITED));
    Released(Thread([], WAITING));
    Next0(d3, WAITING, d3, WAITED, IDLE);
    InsertedAndMarked(Thread([], WAITED), 1, 1, 1, 1);
    var b := Thread([], InSucc(HEAD, SStart, SKIP));
    ClearedMark(b, 1, 1, 1, 1);
    s := St(Duo(NewElem(Link(NODE), Link(NODE), 1), Elem(Link(NIL), Link(NIL), 3, 2, 2, 1), 1), IDLE, b);
  }

  /**
   The window that the comment in llll_unlink describes: a release of a properly unlinked node is past its wait,
   and another thread takes a reference to the node and is about to lock its link.
   */
  lemma TouchedDuringRelease() returns (s: State)
    ensures Reachable(s) && |s.threads| == 2 && |s.mem| == 3
    ensures s.threads[1] == Thread([], WAITED) && s.mem[NODE].pred.fl && s.mem[NODE].rets == 1
    ensures s.threads[0].pend == [] && NextOp(s.threads[0].ctl) == Lock(Fld(NODE, Succ))
  {
    hide Then, Nothing, Drain, AllFit, Reachable;
    DrainLaws();
    UnlinkedAndWaited();
    var d1 := Duo(NewElem(Link(HEAD), Link(HEAD), 4), Elem(Link(HEAD), FlaggedLink(HEAD), 1, 1, 0, 1), 0);
    var d2 := Duo(NewElem(Link(HEAD), Link(HEAD), 4), Elem(Link(HEAD), FlaggedLink(HEAD), 2, 1, 0, 1), 0);
    assert NONE + multiset{NODE} == ONE;
    Call0(d1, NONE, LlRef(NODE), d2, Idle(ONE), Thread([], WAITED));
    Call0(d2, ONE, LlSucc(NODE), d2, InSucc(NODE, SStart, KApi(ONE)), Thread([], WAITED));
    s := St(d2, Thread([], InSucc(NODE, SStart, KApi(ONE))), Thread([], WAITED));
  }
}
