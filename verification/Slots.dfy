/**
 The connection slots of the service: a slot is taken from the free ring by the application,
 bound to a socket by a command, and given back when that socket is closed.

 The application is outside the service.  `taken` and `offered` record what it may use: the slots it dequeued
 and has not bound yet, and the accepted sockets it was told of and has not claimed or declined yet.
 */
module Slots {
  import opened Options

  datatype Slot = Slot(ringsetIdx: int, parentIdx: int, pid: int, socket: Option<nat>)

  datatype Step =
    | Take
    | GiveBack(idx: nat)
    | Accept
    | AcceptUntold(given: Option<nat>)
    | OpenSocket(idx: nat, parent: int, pid: int, created: bool)
    | SetSocketRing(idx: nat, parent: int, pid: int, sock: nat)
    | CloseSlot(idx: nat)
    | Shutdown(idx: nat, how: int)
    | Decline(sock: nat)

  const FREE := Slot(-1, -1, 0, None)

  ghost predicate Distinct(ring: seq<nat>) {
    forall i, j :: 0 <= i < j < |ring| ==> ring[i] != ring[j]
  }

  ghost function Below(n: nat): (s: set<nat>)
    ensures |s| == n && forall x: nat :: x in s <==> x < n
  {
    if n == 0 then {} else Below(n - 1) + {n - 1}
  }

  /** Distinct numbers below n that leave one number out are fewer than n. */
  lemma {:induction false} LeavesRoom(ring: seq<nat>, n: nat, missing: nat)
    requires Distinct(ring) && (forall x :: x in ring ==> x < n) && missing < n && missing !in ring
    ensures |ring| < n
  {
    SetOfDistinct(ring);
    Fewer(Members(ring), Below(n) - {missing});
  }

  ghost function Members(ring: seq<nat>): set<nat> { set x | x in ring }

  lemma {:induction false} SetOfDistinct(ring: seq<nat>)
    requires Distinct(ring)
    ensures |Members(ring)| == |ring|
  {
    if ring == [] {
    } else {
      var shorter, last := ring[..|ring| - 1], ring[|ring| - 1];
      SetOfDistinct(shorter);
      assert ring == shorter + [last];
      assert Members(ring) == Members(shorter) + {last};
      assert last !in Members(shorter);
    }
  }

  lemma {:induction false} Fewer(a: set<nat>, b: set<nat>)
    requires a <= b
    ensures |a| <= |b|
  {
    if a == {} {
    } else {
      var x :| x in a;
      Fewer(a - {x}, b - {x});
    }
  }

  /** User data is null or a slot that points back and carries its own index; a slot without socket is blank. */
  ghost predicate IsLinked(slots: seq<Slot>, userData: seq<Option<nat>>, offered: set<nat>) {
    && (forall s :: 0 <= s < |userData| && userData[s].Some? ==>
          userData[s].value < |slots| && slots[userData[s].value].socket == Some(s))
    && (forall i :: 0 <= i < |slots| ==>
          if slots[i].socket.Some? then
            && slots[i].socket.value < |userData| && userData[slots[i].socket.value] == Some(i)
            && slots[i].ringsetIdx == i
          else
            slots[i].ringsetIdx == -1 && slots[i].parentIdx == -1)
    && (forall s :: s in offered ==> s < |userData| && userData[s] == None)
  }

  /**
   Every slot but the last is in exactly one of three places: once in the free ring, in the hands of the
   application, or bound.  The last slot is in none, since the ring holds one element fewer than its size.
   */
  ghost predicate IsShared(slots: seq<Slot>, ring: seq<nat>, taken: set<nat>) {
    && Distinct(ring)
    && (forall i :: i in ring ==> i < |slots| - 1 && slots[i].socket.None? && i !in taken)
    && (forall i :: i in taken ==> i < |slots| - 1 && slots[i].socket.None?)
    && (forall i :: 0 <= i < |slots| ==>
          if i == |slots| - 1 then slots[i].socket.None? else slots[i].socket.Some? || i in ring || i in taken)
  }

  lemma TakeFirst(slots: seq<Slot>, ring: seq<nat>, taken: set<nat>)
    requires IsShared(slots, ring, taken) && ring != []
    ensures IsShared(slots, ring[1..], taken + {ring[0]})
  {
    var rest := ring[1..];
    assert forall i :: 0 <= i < |rest| ==> rest[i] == ring[i + 1];
    assert ring == [ring[0]] + rest;
    assert ring[0] !in rest && forall i :: i in rest ==> i in ring;
  }

  lemma BindSlot(slots: seq<Slot>, userData: seq<Option<nat>>, offered: set<nat>, ring: seq<nat>, taken: set<nat>,
                 idx: nat, parent: int, pid: int, sock: nat)
    requires IsLinked(slots, userData, offered) && IsShared(slots, ring, taken) && idx in taken
    requires sock in offered
    ensures sock < |userData| && idx < |slots| && slots[idx].parentIdx == -1
    ensures
      var slots' := slots[idx := Slot(idx, parent, pid, Some(sock))];
      IsLinked(slots', userData[sock := Some(idx)], offered - {sock}) && IsShared(slots', ring, taken - {idx})
  {
  }

  lemma UnbindSlot(slots: seq<Slot>, userData: seq<Option<nat>>, offered: set<nat>, ring: seq<nat>, taken: set<nat>, idx: nat)
    requires IsLinked(slots, userData, offered) && IsShared(slots, ring, taken)
    requires idx < |slots| && slots[idx].socket.Some?
    ensures
      var slots' := slots[idx := Slot(-1, -1, slots[idx].pid, None)];
      && IsLinked(slots', userData[slots[idx].socket.value := None], offered)
      && IsShared(slots', ring + [idx], taken) && idx !in ring
  {
    assert idx < |slots| - 1;
  }

  /** What the service and the application have in hand. */
  datatype Hands = Hands(slots: seq<Slot>, userData: seq<Option<nat>>, ring: seq<nat>, taken: set<nat>, offered: set<nat>)

  /** The slot and a socket at each other. */
  function Bind(h: Hands, idx: nat, parent: int, pid: int, sock: nat): Hands {
    if idx >= |h.slots| || sock >= |h.userData| then h
    else h.(slots := h.slots[idx := Slot(idx, parent, pid, Some(sock))], userData := h.userData[sock := Some(idx)], taken := h.taken - {idx})
  }

  /** A bound slot blanked and queued last; any other slot is left alone. */
  function Free(h: Hands, idx: nat): Hands {
    if idx >= |h.slots| || h.slots[idx].socket.None? || h.slots[idx].socket.value >= |h.userData| then h
    else h.(slots := h.slots[idx := Slot(-1, -1, h.slots[idx].pid, None)],
            userData := h.userData[h.slots[idx].socket.value := None],
            ring := h.ring + [idx])
  }

  /** What each step changes. */
  function Next(h: Hands, step: Step): Hands {
    match step
    case Take => if h.ring == [] then h else h.(ring := h.ring[1..], taken := h.taken + {h.ring[0]})
    case GiveBack(idx) => h.(ring := h.ring + [idx], taken := h.taken - {idx})
    case Accept => h.(userData := h.userData + [None], offered := h.offered + {|h.userData|})
    case AcceptUntold(given) => h.(userData := h.userData + [given])
    case OpenSocket(idx, parent, pid, created) =>
      if created then Bind(h.(userData := h.userData + [None]), idx, parent, pid, |h.userData|) else h
    case SetSocketRing(idx, parent, pid, sock) => Bind(h, idx, parent, pid, sock).(offered := h.offered - {sock})
    case CloseSlot(idx) => Free(h, idx)
    case Shutdown(idx, how) => if how == 2 then Free(h, idx) else h
    case Decline(sock) => h.(offered := h.offered - {sock})
  }

  function After(h: Hands, steps: seq<Step>): Hands
    decreases |steps|
  {
    if steps == [] then h else Next(After(h, steps[..|steps| - 1]), steps[|steps| - 1])
  }

  ghost predicate Sound(h: Hands) { IsLinked(h.slots, h.userData, h.offered) && IsShared(h.slots, h.ring, h.taken) }

  ghost function BoundSlots(slots: seq<Slot>): (s: set<nat>)
    ensures forall i :: i in s <==> 0 <= i < |slots| && slots[i].socket.Some?
  {
    set i | 0 <= i < |slots| && slots[i].socket.Some?
  }

  lemma Places(h: Hands, i: nat)
    requires Sound(h) && h.slots != []
    ensures i in h.ring || i in h.taken || i in BoundSlots(h.slots) <==> i < |h.slots| - 1
    ensures !(i in h.ring && i in h.taken) && !((i in h.ring || i in h.taken) && i in BoundSlots(h.slots))
  {
  }

  /** Slots are neither made nor lost: those in the ring, taken and bound are together all but one. */
  lemma {:induction false} SlotsConserved(h: Hands)
    requires Sound(h) && h.slots != []
    ensures |h.ring| + |h.taken| + |BoundSlots(h.slots)| == |h.slots| - 1
  {
    hide IsLinked, BoundSlots;
    SetOfDistinct(h.ring);
    forall i: nat
      ensures i in h.ring || i in h.taken || i in BoundSlots(h.slots) <==> i < |h.slots| - 1
      ensures !(i in h.ring && i in h.taken) && !((i in h.ring || i in h.taken) && i in BoundSlots(h.slots))
    {
      Places(h, i);
    }
    ThreeSets(Members(h.ring), h.taken, BoundSlots(h.slots), Below(|h.slots| - 1));
  }

  lemma ThreeSets(a: set<nat>, b: set<nat>, c: set<nat>, all: set<nat>)
    requires forall i: nat :: i in a || i in b || i in c <==> i in all
    requires forall i: nat :: !(i in a && i in b) && !((i in a || i in b) && i in c)
    ensures |a| + |b| + |c| == |all|
  {
    assert a !! b && (a + b) !! c;
    assert a + b + c == all;
  }

  /** Shutting down one direction changes nothing, both directions what close changes. */
  lemma ShutdownLaws(h: Hands, idx: nat, how: int)
    ensures how != 2 ==> Next(h, Shutdown(idx, how)) == h
    ensures Next(h, Shutdown(idx, 2)) == Next(h, CloseSlot(idx))
  {
  }

  /** A slot taken and given back is free again, behind the others. */
  lemma TakeThenGiveBack(h: Hands)
    requires Sound(h) && h.ring != []
    ensures var h' := Next(Next(h, Take), GiveBack(h.ring[0]));
            h' == h.(ring := h.ring[1..] + [h.ring[0]]) && Members(h'.ring) == Members(h.ring)
  {
    var h' := Next(Next(h, Take), GiveBack(h.ring[0]));
    assert h.ring == [h.ring[0]] + h.ring[1..];
    assert h.ring[0] in h.ring && h.ring[0] !in h.taken;
    assert h'.taken == h.taken;
  }

  /** A socket opened on a taken slot and closed again: the slot is blank and queued last, the socket has no slot. */
  lemma OpenThenClose(h: Hands, idx: nat, parent: int, pid: int)
    requires Sound(h) && idx in h.taken
    ensures idx < |h.slots|
    ensures var h' := Next(h, OpenSocket(idx, parent, pid, true));
            h'.slots[idx] == Slot(idx, parent, pid, Some(|h.userData|)) && h'.userData == h.userData + [Some(idx)]
    ensures Next(Next(h, OpenSocket(idx, parent, pid, true)), CloseSlot(idx))
         == Hands(h.slots[idx := Slot(-1, -1, pid, None)], h.userData + [None], h.ring + [idx], h.taken - {idx}, h.offered)
  {
    var h1 := Next(h, OpenSocket(idx, parent, pid, true));
    assert h1.slots[idx] == Slot(idx, parent, pid, Some(|h.userData|));
    assert h1.userData[|h.userData| := None] == h.userData + [None];
  }

  /** An accepted socket bound to a taken slot and closed again: as if it had been declined and the slot given back. */
  lemma ClaimThenClose(h: Hands, idx: nat, parent: int, pid: int, sock: nat)
    requires Sound(h) && idx in h.taken && sock in h.offered
    ensures idx < |h.slots|
    ensures Next(Next(h, SetSocketRing(idx, parent, pid, sock)), CloseSlot(idx))
         == Next(Next(h, Decline(sock)), GiveBack(idx)).(slots := h.slots[idx := Slot(-1, -1, pid, None)])
  {
    var h1 := Next(h, SetSocketRing(idx, parent, pid, sock));
    assert h1.slots[idx] == Slot(idx, parent, pid, Some(sock));
    assert h1.userData[sock := None] == h.userData;
  }

  /** Open fails, accept and decline: no slot is touched. */
  lemma NoSlotTouched(h: Hands, idx: nat, parent: int, pid: int)
    requires Sound(h)
    ensures Next(h, OpenSocket(idx, parent, pid, false)) == h
    ensures Next(Next(h, Accept), Decline(|h.userData|)) == h.(userData := h.userData + [None]) == Next(h, AcceptUntold(None))
  {
    assert |h.userData| !in h.offered;
    assert h.offered + {|h.userData|} - {|h.userData|} == h.offered;
  }

  class Service {
    const pool: nat
    var slots: seq<Slot>
    /** sk_user_data of every socket created so far. */
    var userData: seq<Option<nat>>
    var ring: seq<nat>
    var taken: set<nat>
    var offered: set<nat>
    /** A slot given back was lost because the free ring had no room for it. */
    var lost: bool

    predicate Bound(i: nat)
      reads this
      requires i < |slots|
    {
      slots[i].socket.Some?
    }

    ghost predicate Linked()
      reads this
    {
      |slots| == pool && IsLinked(slots, userData, offered)
    }

    ghost predicate Shared()
      reads this
    {
      |slots| == pool && IsShared(slots, ring, taken) && !lost
    }

    ghost predicate Ok()
      reads this
    {
      Linked() && Shared()
    }

    function State(): Hands
      reads this
    {
      Hands(slots, userData, ring, taken, offered)
    }

    /** The slots and the free ring, which refuses an element when it already holds pool - 1. */
    constructor (pool: nat)
      requires pool > 0
      ensures Ok() && this.pool == pool && ring == seq(pool - 1, i requires 0 <= i => i) && userData == []
    {
      this.pool := pool;
      slots := seq(pool, _ => FREE);
      userData, taken, offered, lost := [], {}, {}, false;
      ring := [];
      new;
      var i := 0;
      while i < pool
        invariant 0 <= i <= pool && slots == seq(pool, _ => FREE) && userData == [] && taken == {} && offered == {} && !lost
        invariant |ring| == (if i < pool then i else pool - 1) && forall k :: 0 <= k < |ring| ==> ring[k] == k
      {
        var room := Enqueue(i);
        i := i + 1;
      }
      forall k: nat | k < pool - 1 ensures k in ring {
        assert ring[k] == k;
      }
    }

    method Enqueue(idx: nat) returns (ok: bool)
      requires pool > 0
      modifies this`ring
      ensures ok == (old(|ring|) < pool - 1)
      ensures ring == if ok then old(ring) + [idx] else old(ring)
    {
      ok := |ring| < pool - 1;
      if ok { ring := ring + [idx]; }
    }

    /** light_free_socket of a slot that is not in the ring: the ring has room for it. */
    method FreeSocket(idx: nat)
      requires Distinct(ring) && (forall i :: i in ring ==> i < pool - 1) && idx < pool - 1 && idx !in ring && !lost
      modifies this`ring, this`lost
      ensures ring == old(ring) + [idx] && !lost
    {
      LeavesRoom(ring, pool - 1, idx);
      var ok := Enqueue(idx);
      lost := !ok;
    }

    /** The application takes a slot from the ring, or finds none. */
    method TakeSlot() returns (idx: Option<nat>)
      requires Ok()
      modifies this`ring, this`taken
      ensures Ok() && (idx == None <==> old(ring) == [])
      ensures idx.Some? ==> old(ring) == [idx.value] + ring && taken == old(taken) + {idx.value}
      ensures idx == None ==> ring == [] && taken == old(taken)
    {
      hide IsLinked, IsShared;
      if ring == [] { return None; }
      idx := Some(ring[0]);
      TakeFirst(slots, ring, taken);
      assert ring == [ring[0]] + ring[1..];
      taken := taken + {ring[0]};
      ring := ring[1..];
    }

    method GiveSlotBack(idx: nat)
      requires Ok() && idx in taken
      modifies this`ring, this`taken, this`lost
      ensures Ok() && ring == old(ring) + [idx] && taken == old(taken) - {idx}
    {
      taken := taken - {idx};
      FreeSocket(idx);
    }

    /** A connection is accepted: its socket starts without user data and the application is told of it. */
    method AcceptConnection() returns (sock: nat)
      requires Ok()
      modifies this`userData, this`offered
      ensures Ok() && sock == old(|userData|) && userData == old(userData) + [None] && offered == old(offered) + {sock}
    {
      sock := |userData|;
      userData := userData + [None];
      offered := offered + {sock};
    }

    /**
     A connection is accepted when no command buffer is free: the application is not told, and the user data is left
     as the stack made it.  The slots stay linked if and only if that is null.
     */
    method AcceptUnannounced(given: Option<nat>) returns (sock: nat)
      requires Ok()
      modifies this`userData
      ensures sock == old(|userData|) && userData == old(userData) + [given]
      ensures Ok() <==> given == None
    {
      sock := |userData|;
      userData := userData + [given];
      assert userData[sock] == given;
    }

    method Open(idx: nat, parent: int, pid: int, created: bool)
      requires Ok() && idx in taken
      modifies this`slots, this`userData, this`taken
      ensures Ok()
      ensures created ==> slots == old(slots)[idx := Slot(idx, parent, pid, Some(old(|userData|)))]
      ensures created ==> userData == old(userData) + [Some(idx)] && taken == old(taken) - {idx}
      ensures !created ==> unchanged(this)
    {
      if created {
        var sock := |userData|;
        slots := slots[idx := slots[idx].(ringsetIdx := idx, parentIdx := parent, pid := pid)];
        userData := userData + [Some(idx)];
        slots := slots[idx := slots[idx].(socket := Some(sock))];
        taken := taken - {idx};
      }
    }

    method SetRing(idx: nat, parent: int, pid: int, sock: nat)
      requires Ok() && idx in taken && sock in offered
      modifies this`slots, this`userData, this`taken, this`offered
      ensures Ok() && slots == old(slots)[idx := Slot(idx, parent, pid, Some(sock))]
      ensures userData == old(userData)[sock := Some(idx)]
      ensures taken == old(taken) - {idx} && offered == old(offered) - {sock}
    {
      hide IsLinked, IsShared;
      BindSlot(slots, userData, offered, ring, taken, idx, parent, pid, sock);
      slots := slots[idx := slots[idx].(ringsetIdx := idx)];
      if parent != -1 {
        slots := slots[idx := slots[idx].(parentIdx := parent)];
      }
      slots := slots[idx := slots[idx].(pid := pid)];
      userData := userData[sock := Some(idx)];
      slots := slots[idx := slots[idx].(socket := Some(sock))];
      assert slots == old(slots)[idx := Slot(idx, parent, pid, Some(sock))];
      taken, offered := taken - {idx}, offered - {sock};
    }

    /** The update shared by the close command and a shutdown of both directions. */
    method Unbind(idx: nat)
      requires Ok() && idx < pool && Bound(idx)
      modifies this`slots, this`userData, this`ring, this`lost
      ensures Ok() && slots == old(slots)[idx := Slot(-1, -1, old(slots[idx].pid), None)]
      ensures userData == old(userData)[old(slots[idx].socket.value) := None] && ring == old(ring) + [idx]
    {
      UnbindSlot(slots, userData, offered, ring, taken, idx);
      userData := userData[slots[idx].socket.value := None];
      slots := slots[idx := slots[idx].(socket := None, ringsetIdx := -1, parentIdx := -1)];
      FreeSocket(idx);
    }

    /** The slot update of the close command, for any index: nothing happens unless the slot is bound. */
    method Close(idx: nat)
      requires Ok() && idx < pool
      modifies this`slots, this`userData, this`ring, this`lost
      ensures Ok()
      ensures old(Bound(idx)) ==> slots == old(slots)[idx := Slot(-1, -1, old(slots[idx].pid), None)]
      ensures old(Bound(idx)) ==> userData == old(userData)[old(slots[idx].socket.value) := None] && ring == old(ring) + [idx]
      ensures !old(Bound(idx)) ==> unchanged(this)
    {
      if slots[idx].socket.Some? {
        Unbind(idx);
      }
    }

    /** Shutting down both directions updates the slot as close does; one direction leaves it alone. */
    method ShutdownSlot(idx: nat, how: int)
      requires Ok() && idx < pool
      modifies this`slots, this`userData, this`ring, this`lost
      ensures Ok()
      ensures how == 2 && old(Bound(idx)) ==> slots == old(slots)[idx := Slot(-1, -1, old(slots[idx].pid), None)]
      ensures how == 2 && old(Bound(idx)) ==> userData == old(userData)[old(slots[idx].socket.value) := None] && ring == old(ring) + [idx]
      ensures how != 2 || !old(Bound(idx)) ==> unchanged(this)
    {
      if slots[idx].socket.Some? {
        if how == 2 {
          Unbind(idx);
        }
      }
    }

    /** Declining closes an accepted socket that no slot knows. */
    method DeclineSocket(sock: nat)
      requires Ok() && sock in offered
      modifies this`userData, this`offered
      ensures Ok() && userData == old(userData) && offered == old(offered) - {sock}
    {
      userData := userData[sock := None];
      offered := offered - {sock};
    }

    /** The application binds and gives back only slots it took, and claims or declines an accepted socket once. */
    predicate Permitted(step: Step)
      reads this
    {
      match step
      case Take => true
      case GiveBack(idx) => idx in taken
      case Accept => true
      case AcceptUntold(given) => given == None
      case OpenSocket(idx, _, _, _) => idx in taken
      case SetSocketRing(idx, _, _, sock) => idx in taken && sock in offered
      case CloseSlot(idx) => idx < pool
      case Shutdown(idx, _) => idx < pool
      case Decline(sock) => sock in offered
    }

    method Perform(step: Step)
      requires Ok() && Permitted(step)
      modifies this
      ensures Ok() && State() == Next(old(State()), step)
    {
      match step
      case Take => var _ := TakeSlot();
      case GiveBack(idx) => GiveSlotBack(idx);
      case Accept => var _ := AcceptConnection();
      case AcceptUntold(given) => var _ := AcceptUnannounced(given);
      case OpenSocket(idx, parent, pid, created) =>
        Open(idx, parent, pid, created);
        assert created ==> userData == (old(userData) + [None])[old(|userData|) := Some(idx)];
      case SetSocketRing(idx, parent, pid, sock) => SetRing(idx, parent, pid, sock);
      case CloseSlot(idx) => Close(idx);
      case Shutdown(idx, how) => ShutdownSlot(idx, how);
      case Decline(sock) => DeclineSocket(sock);
    }

    /** Every run of permitted steps keeps the slots linked and shared out; it stops at a step that is not permitted. */
    method Run(steps: seq<Step>) returns (done: nat)
      requires Ok()
      modifies this
      ensures Ok() && done <= |steps| && (done < |steps| ==> !Permitted(steps[done]))
      ensures State() == After(old(State()), steps[..done])
    {
      hide Next;
      done := 0;
      while done < |steps| && Permitted(steps[done])
        invariant done <= |steps| && Ok() && State() == After(old(State()), steps[..done])
      {
        Perform(steps[done]);
        done := done + 1;
        assert steps[..done][..done - 1] == steps[..done - 1];
      }
    }

    /** What the signalling code relies on: the index found through a socket's user data is the slot's own. */
    lemma UserDataIndex(s: nat)
      requires Ok() && s < |userData| && userData[s].Some?
      ensures
        var i := userData[s].value;
        i < pool - 1 && slots[i].ringsetIdx == i && slots[i].socket == Some(s) && i !in ring && i !in taken
    {
      var i := userData[s].value;
      assert Bound(i);
    }

    /** Two sockets never share a slot. */
    lemma OneSocketPerSlot(s: nat, t: nat)
      requires Ok() && s < |userData| && t < |userData| && userData[s].Some? && userData[s] == userData[t]
      ensures s == t
    {
      UserDataIndex(s);
      UserDataIndex(t);
    }
  }
}
