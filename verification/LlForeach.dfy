/** The iterations LL_FOREACH and LL_FOREACH_REVERSE of service/ll.h, as calls of a thread that runs alone. */
module LlForeach {
  import opened LlTypes
  import opened LlMachine
  import opened LlShape
  import opened LlScene
  import opened LlCalls

  /** The j-th node in the direction of the iteration, and the lookup from a node. */
  function Visited(order: seq<nat>, back: bool, j: nat): nat
    requires j < |order|
  {
    if back then order[|order| - 1 - j] else order[j]
  }

  function Lookup(back: bool, n: nat): Api { if back then LlPred(n) else LlSucc(n) }

  /** The references of a caller who is at the j-th node, or past the last one. */
  function Visiting(bag: multiset<nat>, order: seq<nat>, back: bool, j: nat): multiset<nat> {
    if j < |order| then bag + multiset{Visited(order, back, j)} else bag
  }

  ghost predicate Leads(s: State, t: nat, api: Api, s': State) { exists k :: s' == Called(s, t, api, k) }

  lemma LookupCall(s: State, t: nat, order: seq<nat>, place: seq<real>, bag: multiset<nat>, back: bool, n: nat, i: nat) returns (s': State)
    requires Rests(s, order, place) && IdleWith(s, t, bag) && i <= |order| && Ring(order)[if back then i + 1 else i] == n
    requires n == HEAD || n in bag
    ensures Leads(s, t, Lookup(back, n), s') && Rests(s', order, place)
    ensures Over(s, t, s', Given(bag, Element(Ring(order)[if back then i else i + 1])))
  {
    hide Rests, Over, Alone, Ring;
    RestsRepresents(s, order, place);
    RingNeighbours(Nodes(s.mem), order, HeldBy(s.threads, |s.mem|), place, i);
    var k, e;
    if back {
      k, e := PredCall(s, t, order, place, bag, n);
    } else {
      k, e := SuccCall(s, t, order, place, bag, n);
    }
    s' := Called(s, t, Lookup(back, n), k);
  }

  lemma OverIdle(s: State, t: nat, s': State, bag: multiset<nat>)
    requires Over(s, t, s', bag)
    ensures IdleWith(s', t, bag)
    ensures forall s'', bag' :: Over(s', t, s'', bag') ==> Over(s, t, s'', bag')
  {
    forall s'', bag' | Over(s', t, s'', bag') ensures Over(s, t, s'', bag') {
      assert s.threads[t := Thread([], Idle(bag))][t := Thread([], Idle(bag'))] == s.threads[t := Thread([], Idle(bag'))];
    }
  }

  /** ll_foreach_succ and ll_foreach_pred: look up the next node, then release this one. */
  ghost predicate Advances(s: State, t: nat, back: bool, n: nat, s': State) {
    exists mid :: Leads(s, t, Lookup(back, n), mid) && Leads(mid, t, LlRelease(n), s')
  }

  lemma ForeachNext(s: State, t: nat, order: seq<nat>, place: seq<real>, bag: multiset<nat>, back: bool, j: nat) returns (next: State)
    requires Rests(s, order, place) && j < |order| && IdleWith(s, t, Visiting(bag, order, back, j))
    ensures Advances(s, t, back, Visited(order, back, j), next)
    ensures Over(s, t, next, Visiting(bag, order, back, j + 1)) && Rests(next, order, place)
  {
    hide Rests, Leads, Alone, Ring, Over, Visited, Called, IdleWith, Element, Lookup, Bags, Stands, Deleted;
    var n, i := Visited(order, back, j), if back then |order| - 1 - j else j + 1;
    var bag0 := Visiting(bag, order, back, j);
    NextVisited(s, order, place, back, j);
    var e := Element(Ring(order)[if back then i else i + 1]);
    var mid := LookupCall(s, t, order, place, bag0, back, n, i);
    OverIdle(s, t, mid, Given(bag0, e));
    NextVisited(mid, order, place, back, j);
    var k := ReleaseCall(mid, t, order, place, Given(bag0, e), n);
    next := Called(mid, t, LlRelease(n), k);
    LeadsBy(mid, t, LlRelease(n), k);
    assert Given(bag0, e) - multiset{n} == Visiting(bag, order, back, j + 1);
  }

  lemma LeadsBy(s: State, t: nat, api: Api, k: nat)
    ensures Leads(s, t, api, Called(s, t, api, k))
  {
  }

  lemma NextVisited(s: State, order: seq<nat>, place: seq<real>, back: bool, j: nat)
    requires Rests(s, order, place) && j < |order|
    ensures var i := if back then |order| - 1 - j else j + 1;
            var e := Element(Ring(order)[if back then i else i + 1]);
            && HEAD < Visited(order, back, j) < |s.mem| && Ring(order)[if back then i + 1 else i] == Visited(order, back, j)
            && (if j + 1 < |order| then e == Visited(order, back, j + 1) && e != NIL else e == NIL)
  {
    hide CountOk, Linked, RestOk;
    var m := Nodes(s.mem);
    OnRing(m, order, place, if back then |order| - 1 - j else j);
    if j + 1 < |order| { OnRing(m, order, place, if back then |order| - 2 - j else j + 1); }
  }

  /**
   LL_FOREACH visits the nodes of the list in order, LL_FOREACH_REVERSE from the last to the first, with a reference to
   the current node and no other.
   */
  lemma Foreach(s: State, t: nat, order: seq<nat>, place: seq<real>, bag: multiset<nat>, back: bool) returns (states: seq<State>)
    requires Rests(s, order, place) && IdleWith(s, t, bag)
    ensures |states| == |order| + 1 && Leads(s, t, Lookup(back, HEAD), states[0])
    ensures forall j :: 0 <= j <= |order| ==> Over(s, t, states[j], Visiting(bag, order, back, j)) && Rests(states[j], order, place)
    ensures forall j :: 0 <= j < |order| ==> Advances(states[j], t, back, Visited(order, back, j), states[j + 1])
  {
    hide Rests, Leads, Alone, Visited, Advances, Over, Visiting, Ring, Step;
    FirstVisited(s, order, place, back);
    var first := LookupCall(s, t, order, place, bag, back, HEAD, if back then |order| else 0);
    assert Over(s, t, first, Visiting(bag, order, back, 0)) by { FirstVisiting(bag, order, back); }
    states := [first];
    while |states| <= |order|
      invariant 1 <= |states| <= |order| + 1 && states[0] == first
      invariant forall j :: 0 <= j < |states| ==> Over(s, t, states[j], Visiting(bag, order, back, j)) && Rests(states[j], order, place)
      invariant forall j :: 0 <= j < |states| - 1 ==> Advances(states[j], t, back, Visited(order, back, j), states[j + 1])
      decreases |order| + 1 - |states|
    {
      var j := |states| - 1;
      OverIdle(s, t, states[j], Visiting(bag, order, back, j));
      var next := ForeachNext(states[j], t, order, place, bag, back, j);
      states := states + [next];
    }
  }

  lemma FirstVisiting(bag: multiset<nat>, order: seq<nat>, back: bool)
    ensures Visiting(bag, order, back, 0) == Given(bag, if order == [] then NIL else Visited(order, back, 0))
         || (order != [] && Visited(order, back, 0) == NIL)
  {
  }

  lemma FirstVisited(s: State, order: seq<nat>, place: seq<real>, back: bool)
    requires Rests(s, order, place)
    ensures Ring(order)[if back then |order| + 1 else 0] == HEAD
    ensures Element(Ring(order)[if back then |order| else 1]) == if order == [] then NIL else Visited(order, back, 0)
    ensures order != [] ==> Visited(order, back, 0) != NIL
  {
    hide CountOk, Linked, RestOk;
    var m := Nodes(s.mem);
    RingEnds(m, order, place);
    if order != [] { OnRing(m, order, place, if back then |order| - 1 else 0); }
  }
}
