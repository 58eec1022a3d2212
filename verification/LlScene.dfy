/**
 A thread of the list machine that runs alone, seen through the nodes of LlShape: what each of its turns, one operation
 together with everything it queues, does to a scene.
 */
module LlScene {
  import opened Options
  import opened LlTypes
  import opened LlMachine
  import opened LlShape

  /** The nodes without their history, the one link whose DEREF bit is set, and the size. */
  datatype Scene = Scene(m: seq<Node>, lock: Option<Fld>, size: int)

  predicate NodeLooks(e: Elem, x: nat, n: Node, lock: Option<Fld>) {
    && e.succ == Ptr(n.succ.a, n.succ.fl, lock == Some(Fld(x, Succ)))
    && e.pred == Ptr(n.pred.a, n.pred.fl, lock == Some(Fld(x, Pred)))
    && e.cnt == n.cnt
  }

  ghost predicate Looks(mem: seq<Elem>, v: Scene) {
    |mem| == |v.m| && forall x :: 0 <= x < |mem| ==> NodeLooks(mem[x], x, v.m[x], v.lock)
  }

  // ----- Operations on scenes -----

  function TagAt(m: seq<Node>, f: Fld): Tag
    requires Valid(m, f.node)
  {
    if f.side == Succ then m[f.node].succ else m[f.node].pred
  }

  function PutTag(m: seq<Node>, f: Fld, t: Tag): (r: seq<Node>)
    requires Valid(m, f.node)
    ensures |r| == |m|
  {
    if f.side == Succ then SetSucc(m, f.node, t) else SetPred(m, f.node, t)
  }

  function PtrAt(v: Scene, f: Fld): Ptr
    requires Valid(v.m, f.node)
  {
    var t := TagAt(v.m, f);
    Ptr(t.a, t.fl, v.lock == Some(f))
  }

  predicate Fits(n: nat, u: Micro) {
    match u
    case Acq(x) => NIL < x < n
    case Rel(x, _) => NIL < x < n
    case Unlock(f) => NIL < f.node < n
    case Unflag(f) => NIL < f.node < n
    case Resize(_) => true
    case Returned(x) => NIL < x < n
  }

  function Do(v: Scene, u: Micro): (r: Scene)
    ensures |r.m| == |v.m|
  {
    if !Fits(|v.m|, u) then v else
    match u
    case Acq(x) => v.(m := Bump(v.m, x, 1))
    case Rel(x, k) => v.(m := Bump(v.m, x, 0 - k))
    case Unlock(f) => v.(lock := if v.lock == Some(f) then None else v.lock)
    case Unflag(f) => v.(m := PutTag(v.m, f, Tag(TagAt(v.m, f).a, false)))
    case Resize(d) => v.(size := v.size + d)
    case Returned(_) => v
  }

  predicate AllFit(n: nat, q: seq<Micro>) { q == [] || (AllFit(n, q[..|q| - 1]) && Fits(n, q[|q| - 1])) }

  function Drain(v: Scene, q: seq<Micro>): (r: Scene)
    ensures |r.m| == |v.m|
  {
    if q == [] then v else Do(Drain(v, q[..|q| - 1]), q[|q| - 1])
  }

  /** Draining follows the way queues are built. */
  lemma DrainLaws()
    ensures forall v {:trigger Drain(v, Nothing())} :: Drain(v, Nothing()) == v
    ensures forall n {:trigger AllFit(n, Nothing())} :: AllFit(n, Nothing())
    ensures forall v, q, u {:trigger Drain(v, Then(q, u))} :: Drain(v, Then(q, u)) == Do(Drain(v, q), u)
    ensures forall n, q, u {:trigger AllFit(n, Then(q, u))} :: AllFit(n, Then(q, u)) == (AllFit(n, q) && Fits(n, u))
  {
    forall v, q, u ensures Drain(v, Then(q, u)) == Do(Drain(v, q), u) { assert Then(q, u)[..|q|] == q; }
    forall n: nat, q, u ensures AllFit(n, Then(q, u)) == (AllFit(n, q) && Fits(n, u)) { assert Then(q, u)[..|q|] == q; }
  }

  /** The operation meets a node, and no second link gets locked. */
  predicate CanDo(v: Scene, op: Op) {
    Valid(v.m, Target(op)) &&
    match op
    case Lock(_) => v.lock == None
    case Cas(_, _, now) => now.de ==> v.lock == None
    case Xchg(f, now) => v.lock == if now.de then None else Some(f)
    case _ => true
  }

  function Perform(v: Scene, op: Op): (r: Scene)
    ensures |r.m| == |v.m|
  {
    if !CanDo(v, op) then v else
    match op
    case Lock(f) => v.(lock := Some(f))
    case Cas(f, was, now) =>
      if PtrAt(v, f) != was then v
      else Scene(PutTag(v.m, f, Tag(now.a, now.fl)), if now.de then Some(f) else if was.de then None else v.lock, v.size)
    case Xchg(f, now) => Scene(PutTag(v.m, f, Tag(now.a, now.fl)), if now.de then Some(f) else None, v.size)
    case OrFlag(f) => v.(m := PutTag(v.m, f, Tag(TagAt(v.m, f).a, true)))
    case _ => v
  }

  function SeenIn(v: Scene, op: Op): Ptr
    requires CanDo(v, op)
  {
    if op.ReadCnt? || op.Nop? then EMPTY else PtrAt(v, op.f)
  }

  predicate OkIn(v: Scene, op: Op)
    requires CanDo(v, op)
  {
    match op
    case Lock(f) => !PtrAt(v, f).de
    case Cas(f, was, _) => PtrAt(v, f) == was
    case _ => true
  }

  function CountIn(v: Scene, op: Op): int
    requires CanDo(v, op)
  {
    if op.ReadCnt? then v.m[op.n].cnt else 0
  }

  // ----- They are those of the machine -----

  lemma DoIs(mem: seq<Elem>, v: Scene, u: Micro)
    requires Looks(mem, v) && Fits(|v.m|, u)
    ensures MicroEnabled(mem, u) && Looks(ApplyMicro(mem, u), Do(v, u))
    ensures Do(v, u).size == v.size + if u.Resize? then u.d else 0
  {
  }

  lemma PerformIs(mem: seq<Elem>, v: Scene, op: Op)
    requires Looks(mem, v) && CanDo(v, op)
    ensures ValidNode(mem, Target(op)) && Looks(Apply(mem, op), Perform(v, op)) && Perform(v, op).size == v.size
    ensures SeenIn(v, op) == Seen(mem, op) && OkIn(v, op) == Ok(mem, op)
    ensures CountIn(v, op) == if op.ReadCnt? then mem[op.n].cnt else 0
  {
  }

  // ----- Runs of one thread -----

  /** k steps of thread t and of no other. */
  function Alone(s: State, t: nat, k: nat): State { if k == 0 then s else Step(Alone(s, t, k - 1), Run(t)) }

  /** A state and the thread that goes on from it. */
  datatype Solo = Solo(start: State, t: nat)

  ghost predicate Shows(s: State, g: Solo, v: Scene, th: Thread) {
    g.t < |g.start.threads| && Looks(s.mem, v) && s.size == v.size && s.threads == g.start.threads[g.t := th]
  }

  /** Running alone the thread comes to the scene v and the control th; the other threads have not moved. */
  ghost predicate At(g: Solo, v: Scene, th: Thread) {
    exists k :: Shows(Alone(g.start, g.t, k), g, v, th)
  }

  lemma Starts(g: Solo, v: Scene)
    requires g.t < |g.start.threads| && Looks(g.start.mem, v) && g.start.size == v.size
    ensures At(g, v, g.start.threads[g.t])
  {
    assert Shows(Alone(g.start, g.t, 0), g, v, g.start.threads[g.t]);
  }

  lemma OneMicro(g: Solo, v: Scene, q: seq<Micro>, c: Ctl)
    requires At(g, v, Thread(q, c)) && q != [] && Fits(|v.m|, q[0])
    ensures At(g, Do(v, q[0]), Thread(q[1..], c))
  {
    hide Looks, Fits, Do, MicroEnabled, ApplyMicro;
    var k: nat :| Shows(Alone(g.start, g.t, k), g, v, Thread(q, c));
    var s := Alone(g.start, g.t, k);
    DoIs(s.mem, v, q[0]);
    assert Alone(g.start, g.t, k + 1) == Step(s, Run(g.t));
    assert Shows(Alone(g.start, g.t, k + 1), g, Do(v, q[0]), Thread(q[1..], c));
  }

  lemma {:induction false} Drained(g: Solo, v: Scene, q: seq<Micro>, c: Ctl)
    requires At(g, v, Thread(q, c)) && AllFit(|v.m|, q)
    ensures At(g, Drain(v, q), Thread([], c))
    decreases |q|
  {
    hide At, Do, Fits;
    if q == [] {
    } else {
      FirstOf(v, q);
      OneMicro(g, v, q, c);
      Drained(g, Do(v, q[0]), q[1..], c);
    }
  }

  lemma {:induction false} FirstOf(v: Scene, q: seq<Micro>)
    requires q != [] && AllFit(|v.m|, q)
    ensures Fits(|v.m|, q[0]) && AllFit(|v.m|, q[1..]) && Drain(v, q) == Drain(Do(v, q[0]), q[1..])
  {
    hide Fits, Do;
    if |q| == 1 {
      assert q[..0] == [] && q[1..] == [];
    } else {
      FirstOf(v, q[..|q| - 1]);
      assert q[1..][..|q| - 2] == q[..|q| - 1][1..];
    }
  }

  function Moved(v: Scene, c: Ctl): Thread
    requires CanDo(v, NextOp(c))
  {
    var op := NextOp(c);
    After(c, SeenIn(v, op), OkIn(v, op), CountIn(v, op))
  }

  lemma OneOp(g: Solo, v: Scene, c: Ctl)
    requires At(g, v, Thread([], c)) && CanDo(v, NextOp(c))
    ensures At(g, Perform(v, NextOp(c)), Moved(v, c))
  {
    hide Looks, CanDo, Perform, NextOp, After, SeenIn, OkIn, CountIn, Seen, Ok, Apply;
    var k: nat :| Shows(Alone(g.start, g.t, k), g, v, Thread([], c));
    var s := Alone(g.start, g.t, k);
    PerformIs(s.mem, v, NextOp(c));
    assert Alone(g.start, g.t, k + 1) == Step(s, Run(g.t));
    assert Shows(Alone(g.start, g.t, k + 1), g, Perform(v, NextOp(c)), Moved(v, c));
  }

  /** One turn. */
  lemma Turn(g: Solo, v: Scene, c: Ctl, v': Scene, c': Ctl)
    requires At(g, v, Thread([], c)) && CanDo(v, NextOp(c)) && AllFit(|v.m|, Moved(v, c).pend)
    requires Drain(Perform(v, NextOp(c)), Moved(v, c).pend) == v' && Moved(v, c).ctl == c'
    ensures At(g, v', Thread([], c'))
  {
    hide At, CanDo, Perform, Moved, AllFit, Drain, NextOp;
    OneOp(g, v, c);
    Drained(g, Perform(v, NextOp(c)), Moved(v, c).pend, c');
  }
}
