/**
 The ready queues of porting/app_glue.c: sockets enter them from the callbacks of the stack
 and leave them in the periodic passes or when they are closed.

 The stack and the application are outside the model.  Wherever the code calls them, any
 list of callbacks may happen; a script supplies these lists in the order of the calls.
 */
module GlueQueues {
  import opened Options

  datatype TcpState = Established | CloseWait | Closed | OtherState

  /**
   The presence flags of a socket, and how often it was held less how often it was put on
   behalf of the write and of the accept queue.
   */
  datatype Sock = Sock(read: bool, write: bool, accept: bool, closed: bool, writeHolds: int, acceptHolds: int)

  /** The callbacks of the stack, with what they read from the connection; None stands for no socket. */
  datatype Event =
    | Readable(s: Option<nat>, state: TcpState, stream: bool)
    | WriteSpace(s: Option<nat>, state: TcpState, stream: bool, writeable: bool)
    | ErrorReport(s: Option<nat>)
    | Wakeup(s: Option<nat>, listener: Option<nat>, state: TcpState, stream: bool, writeable: bool)

  /** What happens during one call out of this file: callbacks, and whether user_on_accept found its ring full. */
  datatype Call = Call(events: seq<Event>, full: bool)

  /** What a script holds for the next call, and for the calls after it; an exhausted script is quiet. */
  predicate FullNow(script: seq<Call>) { script != [] && script[0].full }

  function Later(script: seq<Call>): seq<Call> { if script == [] then [] else script[1..] }

  /** The listeners whose ring was full, when `served` were offered in turn. */
  function Refused(served: seq<nat>, script: seq<Call>): seq<nat> {
    if served == [] then []
    else (if FullNow(script) then [served[0]] else []) + Refused(served[1..], Later(script))
  }

  function After(script: seq<Call>, calls: nat): seq<Call> {
    if calls == 0 then script else After(Later(script), calls - 1)
  }

  lemma {:induction false} AfterStep(script: seq<Call>, calls: nat)
    ensures After(script, calls + 1) == Later(After(script, calls))
    decreases calls
  {
    hide Later;
    if calls == 0 {
    } else {
      AfterStep(Later(script), calls - 1);
    }
  }

  lemma {:induction false} RefusedStep(served: seq<nat>, script: seq<Call>, s: nat)
    ensures Refused(served + [s], script) == Refused(served, script) + if FullNow(After(script, |served|)) then [s] else []
  {
    hide Later, FullNow;
    if served == [] {
      assert ([] + [s])[1..] == [];
    } else {
      var first := if FullNow(script) then [served[0]] else [];
      var last := if FullNow(After(script, |served|)) then [s] else [];
      var middle := Refused(served[1..], Later(script));
      RefusedStep(served[1..], Later(script), s);
      assert (served + [s])[1..] == served[1..] + [s] && (served + [s])[0] == served[0];
      assert Refused(served + [s], script) == first + (middle + last);
      assert first + (middle + last) == (first + middle) + last;
    }
  }

  lemma RefusedNone(script: seq<Call>)
    ensures Refused([], script) == [] && After(script, 0) == script
  {
  }

  lemma {:induction false} AfterAll(script: seq<Call>, calls: nat)
    requires |script| <= calls
    ensures After(script, calls) == []
  {
    if calls == 0 {
    } else {
      AfterAll(Later(script), calls - 1);
    }
  }

  datatype Step = Callback(e: Event) | RxPass(script: seq<Call>) | TxPass(script: seq<Call>) | Close(s: nat, script: seq<Call>)

  /** The number of callbacks a script still holds. */
  function Length(script: seq<Call>): nat {
    if script == [] then 0 else |script[0].events| + Length(script[1..])
  }

  /** A callback that concerns socket x. */
  predicate Names(e: Event, x: nat) { e.s == Some(x) || (e.Wakeup? && e.listener == Some(x)) }

  /** No callback of a script concerns socket x. */
  ghost predicate Quiet(script: seq<Call>, x: nat) {
    forall i :: 0 <= i < |script| ==> QuietCall(script[i], x)
  }

  ghost predicate QuietCall(call: Call, x: nat) {
    forall j :: 0 <= j < |call.events| ==> !Names(call.events[j], x)
  }

  // ----- Queues -----

  /** Members are sockets, and none is there twice. */
  ghost predicate Queue(q: seq<nat>, n: nat) {
    (forall i :: 0 <= i < |q| ==> q[i] < n) && (forall i, j :: 0 <= i < j < |q| ==> q[i] != q[j])
  }

  function Position(q: seq<nat>, s: nat): (k: nat)
    ensures k <= |q| && (k < |q| ==> q[k] == s) && (k < |q| <==> s in q)
  {
    if q == [] || q[0] == s then 0 else 1 + Position(q[1..], s)
  }

  function Cut(q: seq<nat>, k: nat): (r: seq<nat>)
    requires k < |q|
    ensures |r| == |q| - 1 && forall i :: 0 <= i < |r| ==> r[i] == q[if i < k then i else i + 1]
  {
    q[..k] + q[k + 1..]
  }

  /** TAILQ_REMOVE. */
  function Without(q: seq<nat>, s: nat): seq<nat> {
    var k := Position(q, s);
    if k == |q| then q else Cut(q, k)
  }

  lemma CutQueue(q: seq<nat>, n: nat, k: nat)
    requires Queue(q, n) && k < |q|
    ensures Queue(Cut(q, k), n)
  {
    hide Cut;
  }

  lemma CutMembers(q: seq<nat>, n: nat, k: nat, x: nat)
    requires Queue(q, n) && k < |q|
    ensures x in Cut(q, k) <==> x in q && x != q[k]
  {
    hide Cut;
    if x in q && x != q[k] {
      var i :| 0 <= i < |q| && q[i] == x;
      assert Cut(q, k)[if i < k then i else i - 1] == x;
    }
  }

  lemma WithoutQueue(q: seq<nat>, n: nat, s: nat)
    requires Queue(q, n)
    ensures Queue(Without(q, s), n)
    ensures forall x :: x in Without(q, s) <==> x in q && x != s
    ensures |Without(q, s)| == |q| - if s in q then 1 else 0
  {
    hide Cut, Queue, Position;
    var k := Position(q, s);
    if k < |q| {
      CutQueue(q, n, k);
      forall x ensures x in Without(q, s) <==> x in q && x != s { CutMembers(q, n, k, x); }
    }
  }

  /** TAILQ_INSERT_TAIL of a socket that is not there yet. */
  function Joined(q: seq<nat>, s: nat, wanted: bool): seq<nat> {
    if wanted && s !in q then q + [s] else q
  }

  lemma JoinedQueue(q: seq<nat>, n: nat, s: nat)
    requires Queue(q, n) && s < n
    ensures Queue(Joined(q, s, true), n)
  {
  }

  lemma CutAt(q: seq<nat>, n: nat, k: nat)
    requires Queue(q, n) && k < |q|
    ensures Without(q, q[k]) == q[..k] + q[k + 1..]
  {
    assert Position(q, q[k]) == k;
  }

  lemma CutFirst(q: seq<nat>)
    requires q != []
    ensures Without(q, q[0]) == q[1..]
  {
  }

  lemma WithoutPrefix(q: seq<nat>, longer: seq<nat>, s: nat)
    requires q <= longer
    ensures Without(q, s) <= Without(longer, s)
  {
    hide Position, Cut;
    if s in q {
      SamePosition(q, longer, s);
    } else if s in longer {
      LaterPosition(q, longer, s);
    }
  }

  lemma {:induction false} LaterPosition(q: seq<nat>, longer: seq<nat>, s: nat)
    requires q <= longer && s !in q
    ensures Position(longer, s) >= |q|
  {
    if q == [] {
    } else {
      LaterPosition(q[1..], longer[1..], s);
    }
  }

  lemma {:induction false} SamePosition(q: seq<nat>, longer: seq<nat>, s: nat)
    requires q <= longer && s in q
    ensures Position(q, s) == Position(longer, s)
  {
    if q[0] == s {
    } else {
      SamePosition(q[1..], longer[1..], s);
    }
  }

  /** A pass took the first of `before`, which was number idx of the queue it started with. */
  lemma Served(start: seq<nat>, idx: nat, before: seq<nat>, after: seq<nat>, s: nat)
    requires idx < |start| && start[idx..] <= before && before[0] == s
    requires Without(before, s) <= after
    ensures start[..idx] + [s] == start[..idx + 1] && start[idx + 1..] <= after
    ensures before == start[idx..] && after == Without(before, s) ==> after == start[idx + 1..]
  {
    assert Without(before, s) == before[1..];
    assert start[idx..][1..] == start[idx + 1..];
  }

  /** Number |kept| of the accept queue was offered and either kept or removed; callbacks may have appended. */
  lemma Offered(start: seq<nat>, served: seq<nat>, kept: seq<nat>, before: seq<nat>, after: seq<nat>, full: bool)
    requires |kept| < |before| && kept <= before && start <= served + before[|kept|..]
    requires (if full then before else before[..|kept|] + before[|kept| + 1..]) <= after
    ensures
      var s, k := before[|kept|], |kept|;
      var kept' := if full then kept + [s] else kept;
      && kept' <= after
      && (k + 1 < |before| ==> |kept'| < |after| && after[|kept'|] == before[k + 1] && start <= served + [s] + after[|kept'|..])
      && (k + 1 == |before| ==> start <= served + [s])
  {
    var s, k := before[|kept|], |kept|;
    assert served + before[k..] == served + [s] + before[k + 1..];
    var kept' := if full then kept + [s] else kept;
    AfterOffer(kept, before, after, full);
    PrefixGrows(start, served + [s], before[k + 1..], after[|kept'|..]);
    assert k + 1 == |before| ==> served + [s] + before[k + 1..] == served + [s];
  }

  /**
   Where the walk along the accept queue stands: `served` were offered, those in `kept` had a full ring and are still in
   front of q, and `cur` is the next one.
   */
  ghost predicate Accepting(start: seq<nat>, script: seq<Call>, rest: seq<Call>, served: seq<nat>, kept: seq<nat>,
                            q: seq<nat>, cur: Option<nat>) {
    && kept <= q && (cur.Some? ==> |kept| < |q| && cur.value == q[|kept|])
    && start <= (if cur.Some? then served + q[|kept|..] else served)
    && kept == Refused(served, script) && rest == After(script, |served|)
    && (cur.None? && (served == [] || |script| < |served|) ==> q == kept)
  }

  lemma AcceptStep(start: seq<nat>, script: seq<Call>, served: seq<nat>, kept: seq<nat>, before: seq<nat>, after: seq<nat>,
                   full: bool, next: Option<nat>)
    requires |kept| < |before| && Accepting(start, script, After(script, |served|), served, kept, before, Some(before[|kept|]))
    requires next == if |kept| + 1 < |before| then Some(before[|kept| + 1]) else None
    requires full == FullNow(After(script, |served|))
    requires var q := if full then before else before[..|kept|] + before[|kept| + 1..];
             q <= after && (After(script, |served|) == [] ==> after == q)
    ensures var s := before[|kept|];
            Accepting(start, script, Later(After(script, |served|)), served + [s], if full then kept + [s] else kept, after, next)
  {
    hide Refused, After, Later, FullNow;
    AfterStep(script, |served|);
    RefusedStep(served, script, before[|kept|]);
    if |script| <= |served| { AfterAll(script, |served|); }
    Offered(start, served, kept, before, after, full);
    if next.None? && |script| <= |served| { QuietEnd(kept, before, after, full); }
  }

  lemma QuietEnd(kept: seq<nat>, before: seq<nat>, after: seq<nat>, full: bool)
    requires |before| == |kept| + 1 && kept <= before && after == if full then before else before[..|kept|] + before[|kept| + 1..]
    ensures after == if full then kept + [before[|kept|]] else kept
  {
  }

  lemma AfterOffer(kept: seq<nat>, before: seq<nat>, after: seq<nat>, full: bool)
    requires |kept| < |before| && kept <= before
    requires (if full then before else before[..|kept|] + before[|kept| + 1..]) <= after
    ensures
      var kept' := if full then kept + [before[|kept|]] else kept;
      kept' <= after && before[|kept| + 1..] <= after[|kept'|..]
  {
    var k := |kept|;
    if full {
      assert before[k + 1..] == before[..|before|][k + 1..];
    } else {
      var shorter := before[..k] + before[k + 1..];
      assert shorter[k..] == before[k + 1..];
      assert kept == shorter[..k];
    }
  }

  lemma PrefixGrows(start: seq<nat>, front: seq<nat>, short: seq<nat>, long: seq<nat>)
    requires start <= front + short && short <= long
    ensures start <= front + long
  {
  }

  /** The first of q was served, and callbacks may have appended to the others. */
  lemma DeadStep(start: seq<nat>, served: seq<nat>, q: seq<nat>, after: seq<nat>)
    requires q != [] && start <= served + q && q[1..] <= after
    ensures start <= served + [q[0]] + after
  {
    assert served + q == served + [q[0]] + q[1..];
    PrefixGrows(start, served + [q[0]], q[1..], after);
  }

  // ----- What callbacks and passes do to the four queues of n sockets -----

  datatype Lines = Lines(read: seq<nat>, write: seq<nat>, accept: seq<nat>, closed: seq<nat>)

  predicate Live(state: TcpState) { state == Established || state == CloseWait }

  predicate Over(state: TcpState) { state == CloseWait || state == Closed }

  /** One callback; a socket that does not exist is not reported. */
  function OnEvent(q: Lines, e: Event, n: nat): (r: Lines)
    ensures q.read <= r.read && q.write <= r.write && q.accept <= r.accept && q.closed <= r.closed
    ensures |r.closed| <= |q.closed| + 1 && |r.accept| <= |q.accept| + 1
  {
    if e.s.Some? && e.s.value >= n then q else
    match e
    case Readable(s, state, stream) => if s.None? then q else q.(read := Joined(q.read, s.value, stream ==> Live(state)))
    case WriteSpace(s, state, stream, writeable) =>
      if s.None? then q else q.(write := Joined(q.write, s.value, writeable && (stream ==> state == Established)))
    case ErrorReport(s) => if s.None? then q else q.(closed := Joined(q.closed, s.value, true))
    case Wakeup(s, listener, state, stream, writeable) =>
      if listener.Some? && listener.value >= n then q
      else if listener.Some? && state == Established then q.(accept := Joined(q.accept, listener.value, true))
      else if s.None? || (state == Established && stream) then q
      else if Over(state) then q.(closed := Joined(q.closed, s.value, true))
      else q.(write := Joined(q.write, s.value, writeable && !stream))
  }

  function OnEvents(q: Lines, events: seq<Event>, n: nat): (r: Lines)
    ensures q.read <= r.read && q.write <= r.write && q.accept <= r.accept && q.closed <= r.closed
    ensures |r.closed| <= |q.closed| + |events| && |r.accept| <= |q.accept| + |events|
    decreases |events|
  {
    if events == [] then q else OnEvents(OnEvent(q, events[0], n), events[1..], n)
  }

  /** The callbacks during the next call of a script. */
  function OnCall(q: Lines, script: seq<Call>, n: nat): (r: Lines)
    ensures q.read <= r.read && q.write <= r.write && q.accept <= r.accept && q.closed <= r.closed
    ensures |r.closed| + Length(Later(script)) <= |q.closed| + Length(script)
    ensures |r.accept| + Length(Later(script)) <= |q.accept| + Length(script)
  {
    if script == [] then q else OnEvents(q, script[0].events, n)
  }

  lemma WithoutFirst(q: seq<nat>, longer: seq<nat>)
    requires q != [] && q <= longer
    ensures Without(longer, q[0]) == longer[1..]
  {
  }

  lemma WithoutLength(q: seq<nat>, s: nat)
    ensures |Without(q, s)| == |q| - if s in q then 1 else 0
  {
  }

  /** The queues after a pass, what is left of the script, and the sockets it handled. */
  datatype Pass = Pass(q: Lines, rest: seq<Call>, served: seq<nat>)

  /** A pass that goes on from where `served` were handled. */
  function Behind(served: seq<nat>, p: Pass): Pass { p.(served := served + p.served) }

  lemma BehindNone(p: Pass)
    ensures Behind([], p) == p
  {
  }

  lemma BehindOne(served: seq<nat>, s: nat, p: Pass)
    ensures Behind(served, p.(served := [s] + p.served)) == Behind(served + [s], p)
  {
    assert served + ([s] + p.served) == served + [s] + p.served;
  }

  /** Close the first closed socket until there is none. */
  function DeadPass(q: Lines, script: seq<Call>, n: nat): Pass
    decreases |q.closed| + Length(script)
  {
    if q.closed == [] then Pass(q, script, []) else
    var s, q1 := q.closed[0], OnCall(q, script, n);
    WithoutFirst(q.closed, q1.closed);
    var q2 := OnCall(q1.(closed := Without(q1.closed, s)), Later(script), n);
    var p := DeadPass(q2, Later(Later(script)), n);
    p.(served := [s] + p.served)
  }

  /** Offer number k of the accept queue, and then the one that was behind it before the offer, if any. */
  function AcceptPass(q: Lines, k: nat, more: bool, script: seq<Call>, n: nat): Pass
    requires more ==> k < |q.accept|
    decreases more, |q.accept| - k + Length(script)
  {
    if !more then Pass(q, script, []) else
    var s, q1, full := q.accept[k], OnCall(q, script, n), FullNow(script);
    WithoutLength(q1.accept, s);
    var q2 := if full then q1 else q1.(accept := Without(q1.accept, s));
    var p := AcceptPass(q2, if full then k + 1 else k, k + 1 < |q.accept|, Later(script), n);
    p.(served := [s] + p.served)
  }

  /** Serve the first readable socket, at most `left` times. */
  function ReadPass(q: Lines, left: nat, script: seq<Call>, n: nat): Pass
    decreases left
  {
    if left == 0 || q.read == [] then Pass(q, script, []) else
    var s := q.read[0];
    var p := ReadPass(OnCall(q.(read := Without(q.read, s)), script, n), left - 1, Later(script), n);
    p.(served := [s] + p.served)
  }

  function WritePass(q: Lines, left: nat, script: seq<Call>, n: nat): Pass
    decreases left
  {
    if left == 0 || q.write == [] then Pass(q, script, []) else
    var s := q.write[0];
    var p := WritePass(OnCall(q.(write := Without(q.write, s)), script, n), left - 1, Later(script), n);
    p.(served := [s] + p.served)
  }

  lemma ReadPassOne(q: Lines, left: nat, script: seq<Call>, n: nat)
    ensures left == 0 || q.read == [] ==> ReadPass(q, left, script, n) == Pass(q, script, [])
    ensures left > 0 && q.read != [] ==>
      var p := ReadPass(OnCall(q.(read := Without(q.read, q.read[0])), script, n), left - 1, Later(script), n);
      ReadPass(q, left, script, n) == p.(served := [q.read[0]] + p.served)
  {
    hide OnCall, Without, Later;
  }

  lemma WritePassOne(q: Lines, left: nat, script: seq<Call>, n: nat)
    ensures left == 0 || q.write == [] ==> WritePass(q, left, script, n) == Pass(q, script, [])
    ensures left > 0 && q.write != [] ==>
      var p := WritePass(OnCall(q.(write := Without(q.write, q.write[0])), script, n), left - 1, Later(script), n);
      WritePass(q, left, script, n) == p.(served := [q.write[0]] + p.served)
  {
    hide OnCall, Without, Later;
  }

  /** The rx pass: closed sockets, then listeners, then readable sockets. */
  datatype Turn = Turn(q: Lines, rest: seq<Call>, dead: seq<nat>, accepting: seq<nat>, readable: seq<nat>)

  function RxTurn(q: Lines, script: seq<Call>, n: nat): Turn {
    var d := DeadPass(q, script, n);
    var a := AcceptPass(d.q, 0, d.q.accept != [], d.rest, n);
    var r := ReadPass(a.q, |a.q.read|, a.rest, n);
    Turn(r.q, r.rest, d.served, a.served, r.served)
  }

  /** Off the four queues; pending connections are closed first if s is queued as a listener. */
  function CloseTurn(q: Lines, s: nat, script: seq<Call>, n: nat): (Lines, seq<Call>) {
    var q1 := q.(read := Without(q.read, s), write := Without(q.write, s));
    var q2, rest := if s in q.accept then OnCall(q1, script, n) else q1, if s in q.accept then Later(script) else script;
    (OnCall(q2.(accept := Without(q2.accept, s), closed := Without(q2.closed, s)), rest, n), Later(rest))
  }

  function AfterStepOf(q: Lines, step: Step, n: nat): Lines {
    match step
    case Callback(e) => OnEvent(q, e, n)
    case RxPass(script) => RxTurn(q, script, n).q
    case TxPass(script) => WritePass(q, |q.write|, script, n).q
    case Close(s, script) => if s < n then CloseTurn(q, s, script, n).0 else q
  }

  function AfterSteps(q: Lines, steps: seq<Step>, n: nat): Lines
    decreases |steps|
  {
    if steps == [] then q else AfterSteps(AfterStepOf(q, steps[0], n), steps[1..], n)
  }

  /**
   The order of the rx pass: what becomes readable while a dead socket is closed or a listener is offered is read in
   the same pass, and a listener that gets a connection while a dead socket is closed is offered in it.
   */
  lemma RxOrder(s: nat, x: nat, n: nat)
    requires s < n && x < n
    ensures var read := [Call([Readable(Some(x), Established, true)], false)];
            && RxTurn(Lines([], [], [], [s]), read, n) == Turn(Lines([], [], [], []), [], [s], [], [x])
            && RxTurn(Lines([], [], [s], []), read, n) == Turn(Lines([], [], [], []), [], [], [s], [x])
    ensures RxTurn(Lines([], [], [], [s]), [Call([Wakeup(None, Some(x), Established, true, false)], false)], n)
         == Turn(Lines([], [], [], []), [], [s], [x], [])
  {
    hide DeadPass, AcceptPass, ReadPass, OnEvent;
    var read, accept := Call([Readable(Some(x), Established, true)], false), Call([Wakeup(None, Some(x), Established, true, false)], false);
    var none := Lines([], [], [], []);
    JoinsEmpty(none.(closed := [s]), x, n);
    JoinsEmpty(none.(accept := [s]), x, n);
    OneDead(none, s, read, n);
    OneDead(none, s, accept, n);
    NoneDead(none.(accept := [s]), [read], n);
    OneOffered(none, s, [read], n);
    OneOffered(none, x, [], n);
    OneRead(none, x, n);
    assert AcceptPass(none.(read := [x]), 0, false, [], n) == Pass(none.(read := [x]), [], []) by { NoneOffered(none.(read := [x]), n); }
    assert ReadPass(none, 0, [], n) == Pass(none, [], []) by { ReadPassOne(none, 0, [], n); }
  }

  lemma JoinsEmpty(q: Lines, x: nat, n: nat)
    requires x < n && q.read == []
    ensures OnEvent(q, Readable(Some(x), Established, true), n) == q.(read := [x])
    ensures q.accept == [] ==> OnEvent(q, Wakeup(None, Some(x), Established, true, false), n) == q.(accept := [x])
  {
  }

  /** One dead socket is closed while one callback happens that does not touch the closed queue. */
  lemma OneDead(q: Lines, s: nat, call: Call, n: nat)
    requires q.closed == [] && |call.events| == 1 && OnEvent(q.(closed := [s]), call.events[0], n).closed == [s]
    ensures DeadPass(q.(closed := [s]), [call], n)
         == Pass(OnEvent(q.(closed := [s]), call.events[0], n).(closed := []), [], [s])
  {
    hide OnEvent;
    var q0 := q.(closed := [s]);
    OneCall(q0, call, n);
    CutFirst([s]);
    var q1 := OnCall(q0, [call], n).(closed := []);
    assert [s][1..] == [] && OnCall(q1, [], n) == q1;
    assert DeadPass(q1, [], n) == Pass(q1, [], []);
    assert [s] + [] == [s];
  }

  lemma NoneDead(q: Lines, script: seq<Call>, n: nat)
    requires q.closed == []
    ensures DeadPass(q, script, n) == Pass(q, script, [])
  {
  }

  /** One listener is offered and leaves the queue, while at most one callback happens that does not touch the accept queue. */
  lemma OneOffered(q: Lines, s: nat, script: seq<Call>, n: nat)
    requires q.accept == [] && |script| <= 1 && (script != [] ==> !script[0].full && |script[0].events| == 1)
    requires script != [] ==> OnEvent(q.(accept := [s]), script[0].events[0], n).accept == [s]
    ensures AcceptPass(q.(accept := [s]), 0, true, script, n)
         == Pass(if script == [] then q else OnEvent(q.(accept := [s]), script[0].events[0], n).(accept := []), [], [s])
  {
    hide OnEvent;
    var q0 := q.(accept := [s]);
    if script != [] {
      assert script == [script[0]];
      OneCall(q0, script[0], n);
    }
    CutFirst([s]);
    var q1 := OnCall(q0, script, n).(accept := []);
    assert [s][1..] == [] && Later(script) == [];
    assert AcceptPass(q1, 0, false, [], n) == Pass(q1, [], []);
    assert [s] + [] == [s];
  }

  lemma NoneOffered(q: Lines, n: nat)
    ensures AcceptPass(q, 0, false, [], n) == Pass(q, [], [])
  {
  }

  lemma OneRead(q: Lines, x: nat, n: nat)
    requires q.read == []
    ensures ReadPass(q.(read := [x]), 1, [], n) == Pass(q, [], [x])
  {
    hide ReadPass;
    ReadPassOne(q.(read := [x]), 1, [], n);
    CutFirst([x]);
    assert [x][1..] == [] && OnCall(q, [], n) == q;
    ReadPassOne(q, 0, [], n);
    assert [x] + [] == [x];
  }

  lemma OneCall(q: Lines, call: Call, n: nat)
    requires |call.events| == 1
    ensures OnCall(q, [call], n) == OnEvent(q, call.events[0], n) && Later([call]) == []
  {
    hide OnEvent;
    var r := OnEvent(q, call.events[0], n);
    assert call.events[1..] == [] && OnEvents(r, [], n) == r;
  }

  class Glue {
    var socks: seq<Sock>
    var readQ: seq<nat>
    var writeQ: seq<nat>
    var acceptQ: seq<nat>
    var closedQ: seq<nat>
    var readLen: int
    var writeLen: int
    /** A queued socket met a zero read counter, where the code calls exit(). */
    var exited: bool

    ghost function Now(): Lines
      reads this
    {
      Lines(readQ, writeQ, acceptQ, closedQ)
    }

    ghost predicate Queues()
      reads this
    {
      Queue(readQ, |socks|) && Queue(writeQ, |socks|) && Queue(acceptQ, |socks|) && Queue(closedQ, |socks|)
    }

    ghost predicate Flags()
      reads this
    {
      forall s :: 0 <= s < |socks| ==>
        && (socks[s].read <==> s in readQ) && (socks[s].write <==> s in writeQ)
        && (socks[s].accept <==> s in acceptQ) && (socks[s].closed <==> s in closedQ)
    }

    /** Each hold for the write or accept queue belongs to a member, or to the socket the tx pass is handling. */
    ghost predicate Holds(taken: Option<nat>)
      reads this
    {
      forall s :: 0 <= s < |socks| ==>
        && socks[s].writeHolds == (if s in writeQ then 1 else 0) + (if taken == Some(s) then 1 else 0)
        && socks[s].acceptHolds == (if s in acceptQ then 1 else 0)
    }

    /**
     Inside a pass one socket may be off its queue but still counted: `reading` tells so for
     the read queue, `taken` for the write queue.
     */
    ghost predicate Inv(reading: bool, taken: Option<nat>)
      reads this
    {
      && Queues() && Flags() && Holds(taken) && !exited
      && readLen == |readQ| + (if reading then 1 else 0)
      && writeLen == |writeQ| + (if taken.Some? then 1 else 0)
    }

    /** Between steps. */
    ghost predicate Ok()
      reads this
    {
      Inv(false, None)
    }

    constructor (n: nat)
      ensures Ok() && |socks| == n && readQ == [] && writeQ == [] && acceptQ == [] && closedQ == []
    {
      socks := seq(n, _ => Sock(false, false, false, false, 0, 0));
      readQ, writeQ, acceptQ, closedQ := [], [], [], [];
      readLen, writeLen, exited := 0, 0, false;
    }

    // ----- Callbacks: they only ever append to queues -----

    twostate predicate Appended()
      reads this
    {
      && |socks| == old(|socks|) && old(readQ) <= readQ && old(writeQ) <= writeQ
      && old(acceptQ) <= acceptQ && old(closedQ) <= closedQ
    }

    twostate predicate Untouched(x: nat)
      reads this
    {
      && (x in readQ <==> x in old(readQ)) && (x in writeQ <==> x in old(writeQ))
      && (x in acceptQ <==> x in old(acceptQ)) && (x in closedQ <==> x in old(closedQ))
    }

    method SockReadable(s: nat, state: TcpState, stream: bool, ghost reading: bool, ghost taken: Option<nat>)
      requires Inv(reading, taken) && s < |socks|
      modifies this
      ensures Inv(reading, taken) && |socks| == old(|socks|)
      ensures closedQ == old(closedQ) && acceptQ == old(acceptQ) && writeQ == old(writeQ)
      ensures readQ == Joined(old(readQ), s, stream ==> state == Established || state == CloseWait)
    {
      if state != Established && state != CloseWait && stream { return; }
      if socks[s].read {
        exited := exited || readLen == 0;
        return;
      }
      JoinedQueue(readQ, |socks|, s);
      socks := socks[s := socks[s].(read := true)];
      readQ := readQ + [s];
      readLen := readLen + 1;
    }

    method SockWriteSpace(s: nat, state: TcpState, stream: bool, writeable: bool, ghost reading: bool, ghost taken: Option<nat>)
      requires Inv(reading, taken) && s < |socks|
      modifies this
      ensures Inv(reading, taken) && |socks| == old(|socks|)
      ensures closedQ == old(closedQ) && acceptQ == old(acceptQ) && readQ == old(readQ)
      ensures writeQ == Joined(old(writeQ), s, writeable && (stream ==> state == Established))
    {
      if state != Established && stream { return; }
      if writeable {
        if socks[s].write { return; }
        JoinedQueue(writeQ, |socks|, s);
        socks := socks[s := socks[s].(write := true, writeHolds := socks[s].writeHolds + 1)];
        writeQ := writeQ + [s];
        writeLen := writeLen + 1;
      }
    }

    method SockErrorReport(s: nat, ghost reading: bool, ghost taken: Option<nat>)
      requires Inv(reading, taken) && s < |socks|
      modifies this
      ensures Inv(reading, taken) && |socks| == old(|socks|)
      ensures acceptQ == old(acceptQ) && readQ == old(readQ) && writeQ == old(writeQ)
      ensures closedQ == Joined(old(closedQ), s, true)
    {
      if socks[s].closed { return; }
      JoinedQueue(closedQ, |socks|, s);
      socks := socks[s := socks[s].(closed := true)];
      closedQ := closedQ + [s];
    }

    /** A new connection, a finished connect, a close, or room to write. */
    method SockWakeup(s: Option<nat>, listener: Option<nat>, state: TcpState, stream: bool, writeable: bool,
                      ghost reading: bool, ghost taken: Option<nat>)
      requires Inv(reading, taken) && (s.Some? ==> s.value < |socks|) && (listener.Some? ==> listener.value < |socks|)
      modifies this
      ensures Inv(reading, taken) && |socks| == old(|socks|) && readQ == old(readQ)
      ensures acceptQ == if listener.Some? then Joined(old(acceptQ), listener.value, state == Established) else old(acceptQ)
      ensures closedQ == if s.Some? then Joined(old(closedQ), s.value, state == CloseWait || state == Closed) else old(closedQ)
      ensures writeQ == if s.Some? && !(listener.Some? && state == Established)
                        then Joined(old(writeQ), s.value, writeable && !stream && state != CloseWait && state != Closed)
                        else old(writeQ)
    {
      if listener.Some? && state == Established {
        var l := listener.value;
        if socks[l].accept { return; }
        JoinedQueue(acceptQ, |socks|, l);
        socks := socks[l := socks[l].(accept := true, acceptHolds := socks[l].acceptHolds + 1)];
        acceptQ := acceptQ + [l];
      } else if state == Established && stream {
        // the connection slot is signalled; the queues are not touched
      } else if s.Some? && (state == CloseWait || state == Closed) {
        SockErrorReport(s.value, reading, taken);
      } else if s.Some? {
        SockWriteSpace(s.value, state, stream, writeable, reading, taken);
      }
    }

    method Handle(e: Event, ghost reading: bool, ghost taken: Option<nat>)
      requires Inv(reading, taken)
      modifies this
      ensures Inv(reading, taken) && Appended()
      ensures Now() == OnEvent(old(Now()), e, |socks|)
      ensures forall x :: !Names(e, x) ==> Untouched(x)
    {
      hide Inv;
      if e.s.Some? && e.s.value >= |socks| { return; }
      match e
      case Readable(s, state, stream) =>
        if s.Some? { SockReadable(s.value, state, stream, reading, taken); }
      case WriteSpace(s, state, stream, writeable) =>
        if s.Some? { SockWriteSpace(s.value, state, stream, writeable, reading, taken); }
      case ErrorReport(s) =>
        if s.Some? { SockErrorReport(s.value, reading, taken); }
      case Wakeup(s, listener, state, stream, writeable) =>
        if listener.Some? && listener.value >= |socks| { return; }
        SockWakeup(s, listener, state, stream, writeable, reading, taken);
    }

    /** A call into the stack or the application, during which the next callbacks of the script happen. */
    method CallOut(script: seq<Call>, ghost reading: bool, ghost taken: Option<nat>) returns (rest: seq<Call>, full: bool)
      requires Inv(reading, taken)
      modifies this
      ensures Inv(reading, taken) && Appended()
      ensures Now() == OnCall(old(Now()), script, |socks|)
      ensures rest == Later(script) && full == FullNow(script)
      ensures script == [] ==> unchanged(this)
      ensures forall x :: Quiet(script, x) ==> Quiet(rest, x) && Untouched(x)
    {
      hide Inv, OnEvent;
      if script == [] { return script, false; }
      rest, full := script[1..], script[0].full;
      var events := script[0].events;
      var i := 0;
      while i < |events|
        invariant 0 <= i <= |events| && Inv(reading, taken) && Appended()
        invariant OnEvents(Now(), events[i..], |socks|) == OnEvents(old(Now()), events, |socks|)
        invariant forall x :: QuietCall(script[0], x) ==> Untouched(x)
      {
        Handle(events[i], reading, taken);
        i := i + 1;
      }
    }

    // ----- Taking sockets off -----

    method LeaveRead(s: nat)
      requires Ok() && s in readQ
      modifies this
      ensures Inv(true, None) && |socks| == old(|socks|) && readQ == Without(old(readQ), s)
      ensures writeQ == old(writeQ) && acceptQ == old(acceptQ) && closedQ == old(closedQ) && readLen == old(readLen)
    {
      WithoutQueue(readQ, |socks|, s);
      socks := socks[s := socks[s].(read := false)];
      readQ := Without(readQ, s);
    }

    method PutRead()
      requires Inv(true, None)
      modifies this
      ensures Ok() && |socks| == old(|socks|) && writeQ == old(writeQ) && readQ == old(readQ)
      ensures acceptQ == old(acceptQ) && closedQ == old(closedQ)
    {
      readLen := readLen - 1;
    }

    /** Off the write queue and its flag cleared; the hold and the count stay until the socket is put. */
    method LeaveWrite(s: nat)
      requires Ok() && s in writeQ
      modifies this
      ensures Inv(false, Some(s)) && s < |socks| == old(|socks|) && writeQ == Without(old(writeQ), s)
      ensures readQ == old(readQ) && acceptQ == old(acceptQ) && closedQ == old(closedQ) && writeLen == old(writeLen)
    {
      WithoutQueue(writeQ, |socks|, s);
      socks := socks[s := socks[s].(write := false)];
      writeQ := Without(writeQ, s);
    }

    method PutWrite(s: nat)
      requires Inv(false, Some(s)) && s < |socks|
      modifies this
      ensures Ok() && |socks| == old(|socks|) && writeQ == old(writeQ) && readQ == old(readQ)
      ensures acceptQ == old(acceptQ) && closedQ == old(closedQ)
    {
      socks := socks[s := socks[s].(writeHolds := socks[s].writeHolds - 1)];
      writeLen := writeLen - 1;
    }

    method LeaveAccept(s: nat)
      requires Ok() && s in acceptQ
      modifies this
      ensures Ok() && |socks| == old(|socks|) && acceptQ == Without(old(acceptQ), s)
      ensures readQ == old(readQ) && writeQ == old(writeQ) && closedQ == old(closedQ)
    {
      WithoutQueue(acceptQ, |socks|, s);
      socks := socks[s := socks[s].(accept := false, acceptHolds := socks[s].acceptHolds - 1)];
      acceptQ := Without(acceptQ, s);
    }

    method LeaveClosed(s: nat)
      requires Ok() && s in closedQ
      modifies this
      ensures Ok() && |socks| == old(|socks|) && closedQ == Without(old(closedQ), s)
      ensures readQ == old(readQ) && writeQ == old(writeQ) && acceptQ == old(acceptQ)
    {
      WithoutQueue(closedQ, |socks|, s);
      socks := socks[s := socks[s].(closed := false)];
      closedQ := Without(closedQ, s);
    }

    lemma Counters()
      requires Ok()
      ensures readLen == |readQ| && writeLen == |writeQ|
    {
    }

    // ----- The periodic passes -----

    /** The first loop of the rx pass ends with no closed socket left. */
    method CloseDead(script: seq<Call>) returns (rest: seq<Call>, served: seq<nat>)
      requires Ok()
      modifies this
      ensures Ok() && |socks| == old(|socks|) && closedQ == [] && old(closedQ) <= served
      ensures old(readQ) <= readQ && old(acceptQ) <= acceptQ && old(writeQ) <= writeQ
      ensures Pass(Now(), rest, served) == DeadPass(old(Now()), script, |socks|)
    {
      hide Queues, Flags, Holds, Queue, Position, Without, Length, OnCall, Later;
      rest, served := script, [];
      BehindNone(DeadPass(Now(), rest, |socks|));
      while closedQ != []
        invariant Ok() && |socks| == old(|socks|) && old(closedQ) <= served + closedQ
        invariant old(readQ) <= readQ && old(acceptQ) <= acceptQ && old(writeQ) <= writeQ
        invariant Behind(served, DeadPass(Now(), rest, |socks|)) == DeadPass(old(Now()), script, |socks|)
        decreases |closedQ| + Length(rest)
      {
        var s := closedQ[0];
        var full;
        ghost var first, q0, rest0 := closedQ, Now(), rest;
        rest, full := CallOut(rest, false, None);
        PrefixGrows(old(closedQ), served, first, closedQ);
        ghost var q := closedQ;
        CutFirst(q);
        LeaveClosed(s);
        rest, full := CallOut(rest, false, None);
        DeadStep(old(closedQ), served, q, closedQ);
        BehindOne(served, s, DeadPass(Now(), rest, |socks|));
        served := served + [s];
      }
      assert served + closedQ == served && served + [] == served;
    }

    /** Offers number k of the accept queue to the application, which may leave it there. */
    method Offer(k: nat, script: seq<Call>) returns (rest: seq<Call>, full: bool)
      requires Ok() && k < |acceptQ|
      modifies this
      ensures Ok() && |socks| == old(|socks|)
      ensures (if full then old(acceptQ) else old(acceptQ)[..k] + old(acceptQ)[k + 1..]) <= acceptQ
      ensures |acceptQ| + Length(rest) + (if full then 0 else 1) <= |old(acceptQ)| + Length(script)
      ensures var q := OnCall(old(Now()), script, |socks|); Now() == if full then q else q.(accept := Without(q.accept, old(acceptQ[k])))
      ensures rest == Later(script) && full == FullNow(script)
      ensures script == [] ==> acceptQ == old(acceptQ)[..k] + old(acceptQ)[k + 1..]
      ensures old(readQ) <= readQ && old(closedQ) <= closedQ && old(writeQ) <= writeQ
    {
      hide Flags, Holds, Position, Without, Length, OnCall, Later;
      var s := acceptQ[k];
      rest, full := CallOut(script, false, None);
      if !full {
        CutAt(acceptQ, |socks|, k);
        WithoutQueue(acceptQ, |socks|, s);
        LeaveAccept(s);
      }
    }

    /**
     The second loop walks the accept queue with its next pointer saved before each call.
     Every listener queued at the start is offered once, in order, and those whose ring was full stay in front.
     */
    method AcceptReady(script: seq<Call>) returns (rest: seq<Call>, served: seq<nat>, kept: seq<nat>)
      requires Ok()
      modifies this
      ensures Ok() && |socks| == old(|socks|) && old(acceptQ) <= served
      ensures kept == Refused(served, script) && kept <= acceptQ && rest == After(script, |served|)
      ensures served == [] || |script| < |served| ==> acceptQ == kept
      ensures old(readQ) <= readQ && old(closedQ) <= closedQ && old(writeQ) <= writeQ
      ensures Pass(Now(), rest, served) == AcceptPass(old(Now()), 0, old(acceptQ) != [], script, |socks|)
    {
      hide Inv, Length, Refused, After, Later, FullNow, OnCall, Without;
      RefusedNone(script);
      rest, served, kept := script, [], [];
      ghost var all := AcceptPass(Now(), 0, acceptQ != [], script, |socks|);
      BehindNone(all);
      var cur: Option<nat> := if acceptQ == [] then None else Some(acceptQ[0]);
      while cur.Some?
        invariant Ok() && |socks| == old(|socks|) && Accepting(old(acceptQ), script, rest, served, kept, acceptQ, cur)
        invariant old(readQ) <= readQ && old(closedQ) <= closedQ && old(writeQ) <= writeQ
        invariant Behind(served, AcceptPass(Now(), |kept|, cur.Some?, rest, |socks|)) == all
        decreases cur.Some?, |acceptQ| - |kept| + Length(rest)
      {
        var s, k := cur.value, |kept|;
        var next: Option<nat> := if k + 1 < |acceptQ| then Some(acceptQ[k + 1]) else None;
        ghost var before, was := acceptQ, kept;
        var full;
        rest, full := Offer(k, rest);
        if full {
          kept := kept + [s];
        }
        AcceptStep(old(acceptQ), script, served, was, before, acceptQ, full, next);
        BehindOne(served, s, AcceptPass(Now(), |kept|, next.Some?, rest, |socks|));
        served := served + [s];
        cur := next;
      }
      assert served + [] == served;
    }

    /** Takes the first readable socket off its queue and hands it to the application. */
    method ServeReadable(script: seq<Call>) returns (rest: seq<Call>, s: nat)
      requires Ok() && readQ != []
      modifies this
      ensures Ok() && |socks| == old(|socks|) && s == old(readQ[0]) && rest == Later(script) && Without(old(readQ), s) <= readQ
      ensures Now() == OnCall(old(Now()).(read := Without(old(readQ), s)), script, |socks|) && (script == [] ==> readQ == Without(old(readQ), s))
      ensures old(closedQ) <= closedQ && old(acceptQ) <= acceptQ && old(writeQ) <= writeQ
    {
      hide Inv, Position, Without, OnCall, Length;
      s := readQ[0];
      LeaveRead(s);
      var full;
      rest, full := CallOut(script, true, None);
      PutRead();
    }

    /** The third loop serves exactly the sockets that were readable when it began, in order, each once. */
    method ReadReady(script: seq<Call>) returns (rest: seq<Call>, served: seq<nat>)
      requires Ok()
      modifies this
      ensures Ok() && |socks| == old(|socks|) && served == old(readQ) && (script == [] ==> readQ == [])
      ensures old(closedQ) <= closedQ && old(acceptQ) <= acceptQ && old(writeQ) <= writeQ
      ensures Pass(Now(), rest, served) == ReadPass(old(Now()), old(|readQ|), script, |socks|)
    {
      hide Inv, Position, Without, Length, OnCall, ReadPass;
      Counters();
      var idx, limit := 0, readLen;
      rest, served := script, [];
      ghost var all := ReadPass(Now(), |readQ|, script, |socks|);
      BehindNone(all);
      while idx < limit && readQ != []
        invariant 0 <= idx == |served| <= limit == old(|readQ|)
        invariant Ok() && |socks| == old(|socks|)
        invariant served == old(readQ)[..idx] && old(readQ)[idx..] <= readQ
        invariant Behind(served, ReadPass(Now(), limit - idx, rest, |socks|)) == all
        invariant script == [] ==> rest == [] && readQ == old(readQ)[idx..]
        invariant old(closedQ) <= closedQ && old(acceptQ) <= acceptQ && old(writeQ) <= writeQ
      {
        ghost var before := readQ;
        ReadPassOne(Now(), limit - idx, rest, |socks|);
        var s;
        rest, s := ServeReadable(rest);
        Served(old(readQ), idx, before, readQ, s);
        BehindOne(served, s, ReadPass(Now(), limit - idx - 1, rest, |socks|));
        served, idx := served + [s], idx + 1;
      }
      ReadPassOne(Now(), limit - idx, rest, |socks|);
      assert served + [] == served;
    }

    method ProcessRx(script: seq<Call>) returns (rest: seq<Call>, dead: seq<nat>, accepting: seq<nat>, readable: seq<nat>)
      requires Ok()
      modifies this
      ensures Ok() && |socks| == old(|socks|)
      ensures old(closedQ) <= dead && old(acceptQ) <= accepting && old(readQ) <= readable && old(writeQ) <= writeQ
      ensures Turn(Now(), rest, dead, accepting, readable) == RxTurn(old(Now()), script, |socks|)
    {
      hide Inv, DeadPass, AcceptPass, ReadPass;
      var kept;
      rest, dead := CloseDead(script);
      rest, accepting, kept := AcceptReady(rest);
      rest, readable := ReadReady(rest);
    }

    /** Takes the first writeable socket off its queue and hands it to the application. */
    method ServeWriteable(script: seq<Call>) returns (rest: seq<Call>, s: nat)
      requires Ok() && writeQ != []
      modifies this
      ensures Ok() && |socks| == old(|socks|) && s == old(writeQ[0]) && rest == Later(script) && Without(old(writeQ), s) <= writeQ
      ensures Now() == OnCall(old(Now()).(write := Without(old(writeQ), s)), script, |socks|) && (script == [] ==> writeQ == Without(old(writeQ), s))
      ensures old(closedQ) <= closedQ && old(acceptQ) <= acceptQ && old(readQ) <= readQ
    {
      hide Inv, Position, Without, OnCall, Length;
      s := writeQ[0];
      LeaveWrite(s);
      var full;
      rest, full := CallOut(script, false, Some(s));
      PutWrite(s);
    }

    /** The tx pass serves exactly the sockets that were writeable when it began, in order, each once. */
    method ProcessTx(script: seq<Call>) returns (rest: seq<Call>, served: seq<nat>)
      requires Ok()
      modifies this
      ensures Ok() && |socks| == old(|socks|) && served == old(writeQ) && (script == [] ==> writeQ == [])
      ensures old(closedQ) <= closedQ && old(acceptQ) <= acceptQ && old(readQ) <= readQ
      ensures Pass(Now(), rest, served) == WritePass(old(Now()), old(|writeQ|), script, |socks|)
    {
      hide Inv, Position, Without, Length, OnCall, WritePass;
      Counters();
      var idx, limit := 0, writeLen;
      rest, served := script, [];
      ghost var all := WritePass(Now(), |writeQ|, script, |socks|);
      BehindNone(all);
      while idx < limit && writeQ != []
        invariant 0 <= idx == |served| <= limit == old(|writeQ|)
        invariant Ok() && |socks| == old(|socks|)
        invariant served == old(writeQ)[..idx] && old(writeQ)[idx..] <= writeQ
        invariant Behind(served, WritePass(Now(), limit - idx, rest, |socks|)) == all
        invariant script == [] ==> rest == [] && writeQ == old(writeQ)[idx..]
        invariant old(closedQ) <= closedQ && old(acceptQ) <= acceptQ && old(readQ) <= readQ
      {
        ghost var before := writeQ;
        WritePassOne(Now(), limit - idx, rest, |socks|);
        var s;
        rest, s := ServeWriteable(rest);
        Served(old(writeQ), idx, before, writeQ, s);
        BehindOne(served, s, WritePass(Now(), limit - idx - 1, rest, |socks|));
        served, idx := served + [s], idx + 1;
      }
      WritePassOne(Now(), limit - idx, rest, |socks|);
      assert served + [] == served;
    }

    // ----- Closing -----

    method DropRead(s: nat)
      requires Ok() && s < |socks|
      modifies this
      ensures Ok() && |socks| == old(|socks|) && readQ == Without(old(readQ), s) && s !in readQ
      ensures writeQ == old(writeQ) && acceptQ == old(acceptQ) && closedQ == old(closedQ)
    {
      WithoutQueue(readQ, |socks|, s);
      if socks[s].read {
        LeaveRead(s);
        PutRead();
      }
    }

    method DropWrite(s: nat)
      requires Ok() && s < |socks|
      modifies this
      ensures Ok() && |socks| == old(|socks|) && writeQ == Without(old(writeQ), s) && s !in writeQ
      ensures readQ == old(readQ) && acceptQ == old(acceptQ) && closedQ == old(closedQ)
    {
      WithoutQueue(writeQ, |socks|, s);
      if socks[s].write {
        LeaveWrite(s);
        PutWrite(s);
      }
    }

    /** The pending connections of a listener are accepted and closed before it leaves the queue. */
    method DropAccept(s: nat, script: seq<Call>) returns (rest: seq<Call>)
      requires Ok() && s < |socks|
      modifies this
      ensures Ok() && |socks| == old(|socks|) && Without(old(acceptQ), s) <= acceptQ && s !in acceptQ
      ensures old(readQ) <= readQ && old(writeQ) <= writeQ && old(closedQ) <= closedQ
      ensures script == [] ==> rest == [] && readQ == old(readQ) && writeQ == old(writeQ) && closedQ == old(closedQ)
      ensures script == [] ==> acceptQ == Without(old(acceptQ), s)
      ensures var q := if s in old(acceptQ) then OnCall(old(Now()), script, |socks|) else old(Now());
              Now() == q.(accept := Without(q.accept, s)) && rest == if s in old(acceptQ) then Later(script) else script
      ensures Quiet(script, s) ==> Quiet(rest, s)
      ensures Quiet(script, s) ==> (s in readQ <==> s in old(readQ)) && (s in writeQ <==> s in old(writeQ))
    {
      rest := script;
      if socks[s].accept {
        var full;
        rest, full := CallOut(rest, false, None);
        WithoutPrefix(old(acceptQ), acceptQ, s);
        WithoutQueue(acceptQ, |socks|, s);
        LeaveAccept(s);
      }
    }

    method DropClosed(s: nat)
      requires Ok() && s < |socks|
      modifies this
      ensures Ok() && |socks| == old(|socks|) && closedQ == Without(old(closedQ), s) && s !in closedQ
      ensures readQ == old(readQ) && writeQ == old(writeQ) && acceptQ == old(acceptQ)
    {
      WithoutQueue(closedQ, |socks|, s);
      if socks[s].closed {
        LeaveClosed(s);
      }
    }

    /**
     app_glue_close_socket: off every queue unless a callback during the close names the socket; the queues of other
     sockets only ever grow.
     */
    method CloseSocket(s: nat, script: seq<Call>) returns (rest: seq<Call>)
      requires Ok() && s < |socks|
      modifies this
      ensures Ok() && |socks| == old(|socks|)
      ensures Without(old(acceptQ), s) <= acceptQ && Without(old(closedQ), s) <= closedQ
      ensures Without(old(readQ), s) <= readQ && Without(old(writeQ), s) <= writeQ
      ensures Quiet(script, s) ==> s !in readQ && s !in writeQ && s !in acceptQ && s !in closedQ
      ensures script == [] ==> readQ == Without(old(readQ), s) && writeQ == Without(old(writeQ), s)
      ensures script == [] ==> acceptQ == Without(old(acceptQ), s) && closedQ == Without(old(closedQ), s)
      ensures (Now(), rest) == CloseTurn(old(Now()), s, script, |socks|)
    {
      hide Inv, Position, Without, Length, Quiet, OnCall, Later;
      var full;
      DropRead(s);
      DropWrite(s);
      rest := DropAccept(s, script);
      WithoutPrefix(old(closedQ), closedQ, s);
      DropClosed(s);
      rest, full := CallOut(rest, false, None);
    }

    /** Every run of callbacks, passes and closes keeps the queues, flags, counters and holds in step. */
    method Run(steps: seq<Step>)
      requires Ok()
      modifies this
      ensures Ok() && |socks| == old(|socks|) && Now() == AfterSteps(old(Now()), steps, |socks|)
    {
      hide Inv, OnEvent, RxTurn, WritePass, CloseTurn;
      var i := 0;
      while i < |steps|
        invariant 0 <= i <= |steps| && Ok() && |socks| == old(|socks|)
        invariant AfterSteps(Now(), steps[i..], |socks|) == AfterSteps(old(Now()), steps, |socks|)
      {
        match steps[i] {
          case Callback(e) => Handle(e, false, None);
          case RxPass(script) => var _, _, _, _ := ProcessRx(script);
          case TxPass(script) => var _, _ := ProcessTx(script);
          case Close(s, script) => if s < |socks| { var _ := CloseSocket(s, script); }
        }
        assert steps[i..][1..] == steps[i + 1..];
        i := i + 1;
      }
    }
  }
}
