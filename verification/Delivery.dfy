/**
 * Events: every event is delivered at most once and in the order in which it was posted, and whoever
 * asks first gets the oldest one.
 */
module Delivery {
  import opened Wrappers
  import opened Scheduling
  import opened Conservation

  // ---- the events for one key ----

  function ToSeq<R>(r: Option<R>): seq<R> {
    if r.Some? then [r.value] else []
  }

  function Pick<T, R>(s: seq<T>, f: T -> Option<R>): seq<R> {
    if s == [] then [] else ToSeq(f(s[0])) + Pick(s[1..], f)
  }

  lemma {:induction false} PickJoins<T, R>(a: seq<T>, b: seq<T>, f: T -> Option<R>)
    ensures Pick(a + b, f) == Pick(a, f) + Pick(b, f)
    decreases |a|
  {
    if a == [] {
      assert a + b == b;
    } else {
      var ab := a + b;
      assert ab[1..] == a[1..] + b && ab[0] == a[0];
      PickJoins(a[1..], b, f);
      calc {
        Pick(ab, f);
        ToSeq(f(a[0])) + (Pick(a[1..], f) + Pick(b, f));
        ToSeq(f(a[0])) + Pick(a[1..], f) + Pick(b, f);
      }
    }
  }

  lemma PickOne<T, R>(x: T, f: T -> Option<R>)
    ensures Pick([x], f) == ToSeq(f(x))
  {
    assert [x][1..] == [];
    assert Pick([x][1..], f) == [];
  }

  lemma {:induction false} PickSame<T, R>(s: seq<T>, f: T -> Option<R>, g: T -> Option<R>)
    requires forall i :: 0 <= i < |s| ==> f(s[i]) == g(s[i])
    ensures Pick(s, f) == Pick(s, g)
    decreases |s|
  {
    if s != [] {
      PickSame(s[1..], f, g);
    }
  }

  lemma {:induction false} PickNone<T, R>(s: seq<T>, f: T -> Option<R>)
    requires forall i :: 0 <= i < |s| ==> f(s[i]) == None
    ensures Pick(s, f) == []
    decreases |s|
  {
    if s != [] {
      PickNone(s[1..], f);
    }
  }

  lemma {:induction false} Picked<T, R>(s: seq<T>, f: T -> Option<R>, i: nat)
    requires i < |Pick(s, f)|
    ensures exists j :: 0 <= j < |s| && f(s[j]) == Some(Pick(s, f)[i])
    decreases |s|
  {
    if f(s[0]).Some? && i == 0 {
      assert f(s[0]) == Some(Pick(s, f)[i]);
    } else {
      var m := if f(s[0]).Some? then i - 1 else i;
      Picked(s[1..], f, m);
      var j :| 0 <= j < |s[1..]| && f(s[1..][j]) == Some(Pick(s[1..], f)[m]);
      assert s[1..][j] == s[j + 1];
    }
  }

  lemma {:induction false} IsPicked<T, R>(s: seq<T>, f: T -> Option<R>, j: nat) returns (i: nat)
    requires j < |s| && f(s[j]).Some?
    ensures i < |Pick(s, f)| && Some(Pick(s, f)[i]) == f(s[j])
    decreases |s|
  {
    if j == 0 {
      i := 0;
    } else {
      var m := IsPicked(s[1..], f, j - 1);
      i := if f(s[0]).Some? then m + 1 else m;
    }
  }

  function PendingOn(k: Key): Event -> Option<seq<int>> {
    (e: Event) => if e.active && e.key == k then Some(e.payload) else None
  }

  function PostedTo(k: Key): ((Key, seq<int>)) -> Option<seq<int>> {
    (p: (Key, seq<int>)) => if p.0 == k then Some(p.1) else None
  }

  function DeliveredOn(k: Key): Delivery -> Option<Delivery> {
    (d: Delivery) => if d.key == k then Some(d) else None
  }

  function AskedFor(k: Key): ((nat, Key)) -> Option<nat> {
    (a: (nat, Key)) => if a.1 == k then Some(a.0) else None
  }

  /** The arguments of the events for a key that nobody has got yet, the oldest first. */
  function Pending(events: seq<Event>, k: Key): seq<seq<int>> {
    Pick(events, PendingOn(k))
  }

  function Posted(l: Log, k: Key): seq<seq<int>> {
    Pick(l.posted, PostedTo(k))
  }

  function Delivered(l: Log, k: Key): seq<Delivery> {
    Pick(l.delivered, DeliveredOn(k))
  }

  function Asked(l: Log, k: Key): seq<nat> {
    Pick(l.asked, AskedFor(k))
  }

  function Payloads(s: seq<Delivery>): (r: seq<seq<int>>)
    ensures |r| == |s| && forall i :: 0 <= i < |r| ==> r[i] == s[i].payload
  {
    seq(|s|, i requires 0 <= i < |s| => s[i].payload)
  }

  // ---- the first event for a key, and compaction ----

  lemma FirstIsPending(events: seq<Event>, k: Key)
    ensures var i := FirstMatch(events, k);
            if i == |events| then Pending(events, k) == []
            else
              var rest := events[i := events[i].(active := false)];
              && Pending(events, k) == [events[i].payload] + Pending(rest, k)
              && forall k1 :: k1 != k ==> Pending(rest, k1) == Pending(events, k1)
  {
    var i := FirstMatch(events, k);
    if i == |events| {
      PickNone(events, PendingOn(k));
    } else {
      var e, taken := events[i], events[i].(active := false);
      var rest := events[i := taken];
      assert events == events[..i] + ([e] + events[i + 1..]);
      assert rest == events[..i] + ([taken] + events[i + 1..]);
      PickNone(events[..i], PendingOn(k));
      forall k1 ensures Pending(rest, k1) == Pending(events[..i], k1) + Pending(events[i + 1..], k1)
      {
        PickJoins(events[..i], [taken] + events[i + 1..], PendingOn(k1));
        PickJoins([taken], events[i + 1..], PendingOn(k1));
      }
      forall k1 ensures Pending(events, k1) ==
          Pending(events[..i], k1) + ((if k1 == k then [e.payload] else []) + Pending(events[i + 1..], k1))
      {
        PickJoins(events[..i], [e] + events[i + 1..], PendingOn(k1));
        PickJoins([e], events[i + 1..], PendingOn(k1));
      }
    }
  }

  /** Compaction loses nothing that is pending, and changes no order. */
  lemma {:induction false} CompactKeeps(events: seq<Event>, k: Key)
    ensures Pending(Compact(events), k) == Pending(events, k)
    decreases |events|
  {
    if events != [] {
      var n := |events| - 1;
      var last := if events[n].active then [events[n]] else [];
      CompactKeeps(events[..n], k);
      assert events == events[..n] + [events[n]];
      PickJoins(events[..n], [events[n]], PendingOn(k));
      PickJoins(Compact(events[..n]), last, PendingOn(k));
    }
  }

  /** What is left after compaction is pending. */
  lemma {:induction false} CompactDrops(events: seq<Event>)
    ensures forall i :: 0 <= i < |Compact(events)| ==> Compact(events)[i].active
    decreases |events|
  {
    if events != [] {
      CompactDrops(events[..|events| - 1]);
    }
  }

  // ---- the balance of events ----

  /** What was pending, and what was posted since, is what was delivered since, and then what is pending now. */
  ghost predicate Balanced(w: World, w1: World, l: Log) {
    forall k {:trigger Pending(w1.events, k)} ::
      Pending(w.events, k) + Posted(l, k) == Payloads(Delivered(l, k)) + Pending(w1.events, k)
  }

  lemma BalancedTwice(w: World, w1: World, w2: World, la: Log, lb: Log)
    requires Balanced(w, w1, la) && Balanced(w1, w2, lb)
    ensures Balanced(w, w2, Both(la, lb))
  {
    forall k ensures Pending(w.events, k) + Posted(Both(la, lb), k)
        == Payloads(Delivered(Both(la, lb), k)) + Pending(w2.events, k)
    {
      PickJoins(la.posted, lb.posted, PostedTo(k));
      PickJoins(la.delivered, lb.delivered, DeliveredOn(k));
      Regroup(Pending(w.events, k), Posted(la, k), Posted(lb, k), Delivered(la, k), Delivered(lb, k),
              Pending(w1.events, k), Pending(w2.events, k));
    }
  }

  lemma Regroup(p: seq<seq<int>>, na: seq<seq<int>>, nb: seq<seq<int>>, da: seq<Delivery>, db: seq<Delivery>,
                p1: seq<seq<int>>, p2: seq<seq<int>>)
    requires p + na == Payloads(da) + p1 && p1 + nb == Payloads(db) + p2
    ensures p + (na + nb) == Payloads(da + db) + p2
  {
    assert p + (na + nb) == p + na + nb == Payloads(da) + (p1 + nb);
    assert Payloads(da + db) == Payloads(da) + Payloads(db);
  }

  lemma {:induction false} ActionsBalance(w: World, self: nat, actions: seq<Action>, w1: World, l: Log)
    requires PerformAll(w, self, actions) == Success((w1, l))
    ensures Balanced(w, w1, l) && l.asked == [] && l.delivered == []
    decreases |actions|
  {
    if actions != [] {
      var n := |actions| - 1;
      var (w0, l0) := PerformAll(w, self, actions[..n]).value;
      ActionsBalance(w, self, actions[..n], w0, l0);
      var (w2, l2) := Perform(w0, self, actions[n]).value;
      ActionBalances(w0, self, actions[n], w2, l2);
      BalancedTwice(w, w0, w2, l0, l2);
    }
  }

  lemma ActionBalances(w: World, self: nat, a: Action, w1: World, l: Log)
    requires Perform(w, self, a) == Success((w1, l))
    ensures Balanced(w, w1, l) && l.asked == [] && l.delivered == []
  {
    if a.Notify? {
      PostingBalances(w, Event(a.key, Front(a.payload, MAX_EVENT_ARGS), true), w1, l);
    } else {
      IdleBalances(w, w1, l);
    }
  }

  lemma PostingBalances(w: World, e: Event, w1: World, l: Log)
    requires e.active && w1.events == w.events + [e] && l.posted == [(e.key, e.payload)] && l.delivered == []
    ensures Balanced(w, w1, l)
  {
    forall k ensures Pending(w.events, k) + Posted(l, k) == Payloads(Delivered(l, k)) + Pending(w1.events, k) {
      PickJoins(w.events, [e], PendingOn(k));
      PickOne(e, PendingOn(k));
      PickOne((e.key, e.payload), PostedTo(k));
    }
  }

  lemma IdleBalances(w: World, w1: World, l: Log)
    requires w1.events == w.events && l.posted == [] && l.delivered == []
    ensures Balanced(w, w1, l)
  {
    forall k ensures Pending(w.events, k) + Posted(l, k) == Payloads(Delivered(l, k)) + Pending(w1.events, k) {
      assert Posted(l, k) == [] && Delivered(l, k) == [];
    }
  }

  lemma TakingBalances(w: World, t: nat, key: Key, w1: World, l: Log)
    requires var i := FirstMatch(w.events, key);
             && i < |w.events| && w1.events == w.events[i := w.events[i].(active := false)]
             && l.posted == [] && l.delivered == [Delivery(t, key, w.events[i].payload)]
    ensures Balanced(w, w1, l) && Pending(w.events, key) != [] && l.delivered[0].payload == Pending(w.events, key)[0]
  {
    FirstIsPending(w.events, key);
    var d := l.delivered[0];
    forall k ensures Pending(w.events, k) + Posted(l, k) == Payloads(Delivered(l, k)) + Pending(w1.events, k) {
      assert Posted(l, k) == [];
      PickOne(d, DeliveredOn(k));
      assert Payloads(Delivered(l, k)) == if k == key then [d.payload] else [];
    }
  }

  // ---- one turn ----

  predicate WaitsFor(r: Record, k: Key) {
    r.status == WaitingEvent && r.key == k
  }

  /** The record of a waiting thread that has got an event. */
  function Got(r: Record, payload: seq<int>): Record {
    r.(status := Active, inbox := Some(Front(payload, r.wants)))
  }

  /** A thread that waits for a key, and is not ended, asks, and nobody else does; it gets the oldest event, if any. */
  ghost predicate Serves(w: World, t: nat, w1: World, l: Log) {
    && t < |w.records| == |w1.records|
    && var r := w.records[t];
    && (forall v :: v in l.visits ==> (v.kept <==> !(r.status == Inactive || IsEnded(w.events, r.endon))))
    && (forall v :: v in l.visits ==> v.thread == t)
    && if r.status == WaitingEvent && !IsEnded(w.events, r.endon) then
         && l.asked == [(t, r.key)] && l.posted == []
         && var pending := Pending(w.events, r.key);
         && (if pending == [] then l.delivered == [] && w1.records[t] == r
             else l.delivered == [Delivery(t, r.key, pending[0])] && w1.records[t] == Got(r, pending[0]))
       else
         l.asked == [] && l.delivered == []
  }

  lemma TurnServes(w: World, dt: real, script: Script, w1: World, l: Log)
    requires Conserved(w) && w.queue != [] && Turn(w, dt, script) == Success((w1, l))
    ensures Serves(w, w.queue[0], w1, l) && Balanced(w, w1, l)
  {
    var t := w.queue[0];
    OwnedApart(w, [], t);
    var r := w.records[t];
    if r.status == Active && !IsEnded(w.events, r.endon) {
      ActiveServes(w, t, dt, script, w1, l);
    } else if r.status == WaitingEvent && !IsEnded(w.events, r.endon) {
      WaiterServes(w, t, dt, script, w1, l);
    } else {
      IdleBalances(w, w1, l);
    }
  }

  lemma ActiveServes(w: World, t: nat, dt: real, script: Script, w1: World, l: Log)
    requires Conserved(w) && w.queue != [] && Turn(w, dt, script) == Success((w1, l))
    requires w.queue[0] == t < |w.records| && w.records[t].status == Active && !IsEnded(w.events, w.records[t].endon)
    ensures Serves(w, t, w1, l) && Balanced(w, w1, l)
  {
    var w0 := w.(queue := w.queue[1..]);
    var (w2, l2) := PerformAll(w0, t, script(t).actions).value;
    InHand(w, w0, t);
    SpawnsAreTaken(w0, t, script(t).actions, w2, l2);
    ActionsBalance(w0, t, script(t).actions, w2, l2);
    SameBalance(w0, w2, l2, w, w1, l);
  }

  lemma WaiterServes(w: World, t: nat, dt: real, script: Script, w1: World, l: Log)
    requires w.queue != [] && Turn(w, dt, script) == Success((w1, l))
    requires w.queue[0] == t < |w.records| && w.records[t].status == WaitingEvent && !IsEnded(w.events, w.records[t].endon)
    ensures Serves(w, t, w1, l) && Balanced(w, w1, l)
  {
    var key := w.records[t].key;
    FirstIsPending(w.events, key);
    if FirstMatch(w.events, key) == |w.events| {
      IdleBalances(w, w1, l);
    } else {
      TakingBalances(w, t, key, w1, l);
    }
  }

  lemma SameBalance(w0: World, w2: World, l2: Log, w: World, w1: World, l: Log)
    requires Balanced(w0, w2, l2) && w.events == w0.events && w1.events == w2.events
    requires l.posted == l2.posted && l.delivered == l2.delivered
    ensures Balanced(w, w1, l)
  {
    forall k ensures Pending(w.events, k) + Posted(l, k) == Payloads(Delivered(l, k)) + Pending(w1.events, k) {
      assert Pending(w0.events, k) + Posted(l2, k) == Payloads(Delivered(l2, k)) + Pending(w2.events, k);
    }
  }

  // ---- one tick ----

  /** Every turn serves its thread and keeps the balance. */
  ghost predicate Server(step: Step) {
    forall w: World {:trigger step(w)} :: Conserved(w) && w.queue != [] && step(w).Success? ==>
      var (w1, l) := step(w).value;
      Serves(w, w.queue[0], w1, l) && Balanced(w, w1, l)
  }

  lemma TurnIsServer(dt: real, script: Script)
    ensures Server(TurnOf(dt, script))
  {
    var step := TurnOf(dt, script);
    forall w: World | Conserved(w) && w.queue != [] && step(w).Success?
      ensures Serves(w, w.queue[0], step(w).value.0, step(w).value.1) && Balanced(w, step(w).value.0, step(w).value.1)
    {
      TurnServes(w, dt, script, step(w).value.0, step(w).value.1);
    }
  }

  lemma TurnsBalance(w: World, n: nat, step: Step, w1: World, l: Log)
    requires Proper(step) && Server(step) && Conserved(w) && n <= |w.queue| && Turns(w, n, step) == Success((w1, l))
    ensures Balanced(w, w1, l)
  {
    var claim := (v: World, u: World, k: Log) => Balanced(v, u, k);
    forall v: World ensures claim(v, v, NOTHING) {
      IdleBalances(v, v, NOTHING);
    }
    forall v: World, wa: World, la: Log, m: nat, wb: World, lb: Log
      {:trigger Together(step, v, wa, la, m, wb, lb)}
      | Together(step, v, wa, la, m, wb, lb) && claim(wa, wb, lb)
      ensures claim(v, wb, Both(la, lb))
    {
      BalancedTwice(v, wa, wb, la, lb);
    }
    TurnsInduct(w, n, step, w1, l, claim);
  }

  /** Events and tick: what was pending, and what was posted in the tick, is what was delivered in it, and then what is left. */
  lemma TickBalances(w: World, dt: real, script: Script, w1: World, l: Log)
    requires Conserved(w) && Tick(w, dt, script) == Success((w1, l))
    ensures Balanced(w, w1, l)
  {
    TurnIsProper(dt, script);
    TurnIsServer(dt, script);
    var (w2, l2) := Turns(w, |w.queue|, TurnOf(dt, script)).value;
    TurnsBalance(w, |w.queue|, TurnOf(dt, script), w2, l2);
    CompactBalances(w, w2, l, w1);
  }

  lemma CompactBalances(w: World, w2: World, l: Log, w1: World)
    requires Balanced(w, w2, l) && w1.events == Compact(w2.events)
    ensures Balanced(w, w1, l)
  {
    forall k ensures Pending(w.events, k) + Posted(l, k) == Payloads(Delivered(l, k)) + Pending(w1.events, k) {
      CompactKeeps(w2.events, k);
      assert Pending(w.events, k) + Posted(l, k) == Payloads(Delivered(l, k)) + Pending(w2.events, k);
    }
  }

  // ---- who gets which event ----

  /** A thread that waits for a key at the start of the tick and is not ended before its turn. */
  function WaitingIn(records: seq<Record>, k: Key): Visit -> Option<nat> {
    (v: Visit) =>
      if v.kept && v.thread < |records| && WaitsFor(records[v.thread], k) then Some(v.thread) else None
  }

  /** In the order of the queue. */
  function Waiters(records: seq<Record>, visits: seq<Visit>, k: Key): seq<nat> {
    Pick(visits, WaitingIn(records, k))
  }

  /** The thread that asks as the `i`-th gets the `i`-th event. */
  predicate ServedAt(pending: seq<seq<int>>, asked: seq<nat>, delivered: seq<Delivery>, k: Key, i: nat)
    requires i < |asked| && i < |pending|
  {
    i < |delivered| && delivered[i] == Delivery(asked[i], k, pending[i])
  }

  /** The first who ask get the events that are pending at the start, the oldest first. */
  predicate FirstServed(pending: seq<seq<int>>, asked: seq<nat>, delivered: seq<Delivery>, k: Key) {
    forall i :: 0 <= i < |asked| && i < |pending| ==> ServedAt(pending, asked, delivered, k, i)
  }

  ghost predicate ReceiverSettled(w: World, w1: World, threads: seq<nat>, d: Delivery) {
    && d.thread in threads && d.thread < |w.records| == |w1.records|
    && w1.records[d.thread] == Got(w.records[d.thread], d.payload)
  }

  ghost predicate AskerSettled(w: World, w1: World, l: Log, t: nat, k: Key) {
    && t in Threads(l.visits) && t < |w.records| == |w1.records|
    && (w1.records[t] == w.records[t] || exists d :: d in l.delivered && d.thread == t && d.key == k)
  }

  /** A thread that has had its turn stays as the turn left it: with an event, or as it was. */
  ghost predicate Settled(w: World, w1: World, l: Log) {
    && (forall d :: d in l.delivered ==> ReceiverSettled(w, w1, Threads(l.visits), d))
    && (forall a :: a in l.asked ==> AskerSettled(w, w1, l, a.0, a.1))
  }

  lemma ServesAsked(w: World, t: nat, w1: World, l: Log, k: Key)
    requires Serves(w, t, w1, l) && |l.visits| == 1
    ensures Asked(l, k) == Waiters(w.records, l.visits, k) && |Asked(l, k)| <= 1
  {
    var v := l.visits[0];
    assert l.visits == [v] && v in l.visits;
    PickOne(v, WaitingIn(w.records, k));
    if l.asked != [] {
      PickOne((t, w.records[t].key), AskedFor(k));
    }
  }

  lemma ServesOldest(w: World, t: nat, w1: World, l: Log, k: Key)
    requires Serves(w, t, w1, l)
    ensures |Delivered(l, k)| <= |Asked(l, k)| <= 1 && (Asked(l, k) != [] ==> Posted(l, k) == [])
    ensures FirstServed(Pending(w.events, k), Asked(l, k), Delivered(l, k), k)
  {
    if l.asked != [] {
      PickOne((t, w.records[t].key), AskedFor(k));
      if l.delivered != [] {
        PickOne(l.delivered[0], DeliveredOn(k));
      }
    }
  }

  lemma ServesSettled(w: World, t: nat, w1: World, l: Log)
    requires Serves(w, t, w1, l) && |l.visits| == 1
    ensures Settled(w, w1, l)
  {
    var v := l.visits[0];
    assert l.visits == [v] && v in l.visits;
    assert Threads(l.visits)[0] == t;
    if l.delivered != [] {
      assert l.delivered[0] in l.delivered;
    }
  }

  lemma FirstServedTwice(p: seq<seq<int>>, posted: seq<seq<int>>, a1: seq<nat>, d1: seq<Delivery>,
                         p1: seq<seq<int>>, a2: seq<nat>, d2: seq<Delivery>, k: Key)
    requires p + posted == Payloads(d1) + p1 && |d1| <= |a1| <= 1 && (a1 != [] ==> posted == [])
    requires FirstServed(p, a1, d1, k) && FirstServed(p1, a2, d2, k)
    ensures FirstServed(p, a1 + a2, d1 + d2, k)
  {
    var a, d := a1 + a2, d1 + d2;
    forall i | 0 <= i < |a| && i < |p| ensures ServedAt(p, a, d, k, i) {
      if a1 == [] {
        assert a == a2 && d == d2 && p1 == p + posted;
        assert ServedAt(p1, a2, d2, k, i);
      } else {
        OneMoreServed(p, a1, d1, p1, a2, d2, k, i);
      }
    }
  }

  lemma OneMoreServed(p: seq<seq<int>>, a1: seq<nat>, d1: seq<Delivery>,
                      p1: seq<seq<int>>, a2: seq<nat>, d2: seq<Delivery>, k: Key, i: nat)
    requires p == Payloads(d1) + p1 && |d1| <= |a1| == 1 && i < |p| && i < |a1 + a2|
    requires FirstServed(p, a1, d1, k) && FirstServed(p1, a2, d2, k)
    ensures ServedAt(p, a1 + a2, d1 + d2, k, i)
  {
    assert ServedAt(p, a1, d1, k, 0);
    if i > 0 {
      assert ServedAt(p1, a2, d2, k, i - 1);
    }
  }

  /** What the turns of a tick have to do with the events for a key. */
  ghost predicate Matched(w: World, w1: World, l: Log, k: Key) {
    && Asked(l, k) == Waiters(w.records, l.visits, k)
    && FirstServed(Pending(w.events, k), Asked(l, k), Delivered(l, k), k)
  }

  lemma WaitersTwice(w: World, wa: World, la: Log, lb: Log, k: Key)
    requires Asked(la, k) == Waiters(w.records, la.visits, k)
    requires Asked(lb, k) == Waiters(wa.records, lb.visits, k)
    requires |wa.records| == |w.records|
    requires forall v :: v in lb.visits && v.thread < |w.records| ==> wa.records[v.thread] == w.records[v.thread]
    ensures Asked(Both(la, lb), k) == Waiters(w.records, Both(la, lb).visits, k)
  {
    PickJoins(la.asked, lb.asked, AskedFor(k));
    PickJoins(la.visits, lb.visits, WaitingIn(w.records, k));
    PickSame(lb.visits, WaitingIn(w.records, k), WaitingIn(wa.records, k));
  }

  lemma MatchedTwice(w: World, t: nat, wa: World, la: Log, wb: World, lb: Log, k: Key)
    requires Serves(w, t, wa, la) && |la.visits| == 1 && Balanced(w, wa, la)
    requires Matched(wa, wb, lb, k)
    requires forall v :: v in lb.visits && v.thread < |w.records| ==> wa.records[v.thread] == w.records[v.thread]
    ensures Matched(w, wb, Both(la, lb), k)
  {
    ServesAsked(w, t, wa, la, k);
    ServesOldest(w, t, wa, la, k);
    WaitersTwice(w, wa, la, lb, k);
    PickJoins(la.asked, lb.asked, AskedFor(k));
    PickJoins(la.delivered, lb.delivered, DeliveredOn(k));
    assert Pending(w.events, k) + Posted(la, k) == Payloads(Delivered(la, k)) + Pending(wa.events, k);
    FirstServedTwice(Pending(w.events, k), Posted(la, k), Asked(la, k), Delivered(la, k),
                     Pending(wa.events, k), Asked(lb, k), Delivered(lb, k), k);
  }

  lemma SettledTwice(w: World, t: nat, wa: World, la: Log, wb: World, lb: Log)
    requires Settled(w, wa, la) && Settled(wa, wb, lb) && Threads(la.visits) == [t]
    requires |wa.records| == |w.records| == |wb.records|
    requires (la.asked != [] || la.delivered != []) && t < |w.records| ==> wb.records[t] == wa.records[t]
    requires forall v :: v in Threads(lb.visits) && v < |w.records| ==> wa.records[v] == w.records[v]
    ensures Settled(w, wb, Both(la, lb))
  {
    var l := Both(la, lb);
    assert Threads(l.visits) == Threads(la.visits) + Threads(lb.visits);
    forall d | d in l.delivered ensures ReceiverSettled(w, wb, Threads(l.visits), d) {
      if d in la.delivered {
        assert ReceiverSettled(w, wa, Threads(la.visits), d);
      } else {
        assert ReceiverSettled(wa, wb, Threads(lb.visits), d);
      }
    }
    forall a | a in l.asked ensures AskerSettled(w, wb, l, a.0, a.1) {
      if a in la.asked {
        assert AskerSettled(w, wa, la, a.0, a.1);
      } else {
        assert AskerSettled(wa, wb, lb, a.0, a.1);
      }
    }
  }

  /** The threads that are reached later have been left alone, and so is this one from now on if it stays. */
  lemma LeftAlone(w: World, n: nat, wa: World, la: Log, wb: World, lb: Log)
    requires Conserved(w) && 0 < n <= |w.queue| && TurnDoes(w, w.queue[0], wa, la)
    requires n - 1 <= |wa.queue| && TurnsDo(wa, n - 1, wb, lb)
    ensures forall x :: x in Threads(lb.visits) && x < |w.records| ==> wa.records[x] == w.records[x]
    ensures la.visits[0].kept && w.queue[0] < |w.records| ==> wb.records[w.queue[0]] == wa.records[w.queue[0]]
  {
    var t := w.queue[0];
    forall x | x in Threads(lb.visits) && x < |w.records| ensures wa.records[x] == w.records[x] {
      var i :| 0 <= i < n - 1 && wa.queue[..n - 1][i] == x;
      var j := i + 1;
      assert wa.queue[i] == w.queue[j];
      OwnedOnce(w, [], 0, j);
      OwnedApart(w, [], x);
      assert forall s :: s in la.spawned ==> s in w.free;
    }
    if la.visits[0].kept {
      var s := la.spawned + [t];
      assert Stay(la.visits[0]) == s && s[|s| - 1] == t;
      assert wa.queue == w.queue[1..] + s;
      assert wa.queue[n - 1..] == w.queue[n..] + s;
      assert t in wa.queue[n - 1..];
    }
  }

  lemma TurnsMatch(w: World, n: nat, step: Step, w1: World, l: Log, k: Key)
    requires Proper(step) && Server(step) && Conserved(w) && n <= |w.queue| && Turns(w, n, step) == Success((w1, l))
    ensures Matched(w, w1, l, k)
  {
    var claim := (v: World, u: World, r: Log) => Matched(v, u, r, k);
    forall v: World, wa: World, la: Log, m: nat, wb: World, lb: Log
      {:trigger Together(step, v, wa, la, m, wb, lb)}
      | Together(step, v, wa, la, m, wb, lb) && claim(wa, wb, lb)
      ensures claim(v, wb, Both(la, lb))
    {
      Parts(step, v, wa, la, m, wb, lb);
      Served(v, step, wa, la);
      MatchTogether(v, m, wa, la, wb, lb, k);
    }
    TurnsInduct(w, n, step, w1, l, claim);
  }

  lemma Served(v: World, step: Step, wa: World, la: Log)
    requires Server(step) && Conserved(v) && v.queue != [] && step(v) == Success((wa, la))
    ensures Serves(v, v.queue[0], wa, la) && Balanced(v, wa, la)
  {
  }

  lemma TurnsSettle(w: World, n: nat, step: Step, w1: World, l: Log)
    requires Proper(step) && Server(step) && Conserved(w) && n <= |w.queue| && Turns(w, n, step) == Success((w1, l))
    ensures Settled(w, w1, l)
  {
    var claim := (v: World, u: World, r: Log) => Settled(v, u, r);
    forall v: World, wa: World, la: Log, m: nat, wb: World, lb: Log
      {:trigger Together(step, v, wa, la, m, wb, lb)}
      | Together(step, v, wa, la, m, wb, lb) && claim(wa, wb, lb)
      ensures claim(v, wb, Both(la, lb))
    {
      Parts(step, v, wa, la, m, wb, lb);
      Served(v, step, wa, la);
      SettleTogether(v, m, wa, la, wb, lb);
    }
    TurnsInduct(w, n, step, w1, l, claim);
  }

  lemma MatchTogether(w: World, n: nat, wa: World, la: Log, wb: World, lb: Log, k: Key)
    requires Conserved(w) && 0 < n <= |w.queue| && TurnDoes(w, w.queue[0], wa, la)
    requires Serves(w, w.queue[0], wa, la) && Balanced(w, wa, la)
    requires n - 1 <= |wa.queue| && TurnsDo(wa, n - 1, wb, lb)
    requires Matched(wa, wb, lb, k)
    ensures Matched(w, wb, Both(la, lb), k)
  {
    LeftAlone(w, n, wa, la, wb, lb);
    forall v | v in lb.visits && v.thread < |w.records| ensures wa.records[v.thread] == w.records[v.thread] {
      var i :| 0 <= i < |lb.visits| && lb.visits[i] == v;
      assert Threads(lb.visits)[i] == v.thread;
    }
    MatchedTwice(w, w.queue[0], wa, la, wb, lb, k);
  }

  lemma SettleTogether(w: World, n: nat, wa: World, la: Log, wb: World, lb: Log)
    requires Conserved(w) && 0 < n <= |w.queue| && TurnDoes(w, w.queue[0], wa, la) && Serves(w, w.queue[0], wa, la)
    requires n - 1 <= |wa.queue| && TurnsDo(wa, n - 1, wb, lb)
    requires Settled(wa, wb, lb)
    ensures Settled(w, wb, Both(la, lb))
  {
    var t := w.queue[0];
    LeftAlone(w, n, wa, la, wb, lb);
    ServesSettled(w, t, wa, la);
    assert Threads(la.visits) == [t];
    assert la.visits[0] in la.visits;
    SettledTwice(w, t, wa, la, wb, lb);
  }

  /**
   * Event matching. Take the threads that wait for a key at the start of the tick and are not ended before
   * their turn, in the order of the queue, and the events that are pending for the key at the start,
   * the oldest first. The i-th of these threads gets the i-th of these events, and runs again.
   */
  lemma EventMatching(w: World, dt: real, script: Script, w1: World, l: Log, k: Key, i: nat)
    requires Conserved(w) && Tick(w, dt, script) == Success((w1, l))
    requires var waiters := Waiters(w.records, l.visits, k); i < |waiters| && i < |Pending(w.events, k)|
    ensures var waiters := Waiters(w.records, l.visits, k);
            && waiters[i] < |w.records| == |w1.records|
            && w1.records[waiters[i]] == Got(w.records[waiters[i]], Pending(w.events, k)[i])
  {
    TickMatches(w, dt, script, w1, l, k);
    assert ServedAt(Pending(w.events, k), Asked(l, k), Delivered(l, k), k, i);
    Picked(l.delivered, DeliveredOn(k), i);
    assert ReceiverSettled(w, w1, Threads(l.visits), Delivered(l, k)[i]);
  }

  lemma TickMatches(w: World, dt: real, script: Script, w1: World, l: Log, k: Key)
    requires Conserved(w) && Tick(w, dt, script) == Success((w1, l))
    ensures Matched(w, w1, l, k) && Settled(w, w1, l)
  {
    TurnIsProper(dt, script);
    TurnIsServer(dt, script);
    var (w2, l2) := Turns(w, |w.queue|, TurnOf(dt, script)).value;
    TurnsMatch(w, |w.queue|, TurnOf(dt, script), w2, l2, k);
    TurnsSettle(w, |w.queue|, TurnOf(dt, script), w2, l2);
    SameRecords(w, w2, l2, w1);
  }

  lemma SameRecords(w: World, w2: World, l: Log, w1: World)
    requires Settled(w, w2, l) && w1.records == w2.records
    ensures Settled(w, w1, l)
  {
    forall d | d in l.delivered ensures ReceiverSettled(w, w1, Threads(l.visits), d) {
      assert ReceiverSettled(w, w2, Threads(l.visits), d);
    }
    forall a | a in l.asked ensures AskerSettled(w, w1, l, a.0, a.1) {
      assert AskerSettled(w, w2, l, a.0, a.1);
    }
  }

  /**
   * No wakeup is lost: when a thread that has waited for a key since the start of the tick, and is not
   * ended, still waits at its end, then none of the events that were pending for the key at the start is.
   * What is pending now was posted in this tick.
   */
  lemma NoLostWakeup(w: World, dt: real, script: Script, w1: World, l: Log, k: Key, i: nat)
    requires Conserved(w) && Tick(w, dt, script) == Success((w1, l))
    requires i < |Waiters(w.records, l.visits, k)|
    requires var t := Waiters(w.records, l.visits, k)[i]; t < |w1.records| && w1.records[t].status == WaitingEvent
    ensures |Pending(w1.events, k)| <= |Posted(l, k)|
    ensures Pending(w1.events, k) == Posted(l, k)[|Posted(l, k)| - |Pending(w1.events, k)|..]
  {
    TickBalances(w, dt, script, w1, l);
    TickMatches(w, dt, script, w1, l, k);
    var p, n, d, p1 := Pending(w.events, k), Posted(l, k), Delivered(l, k), Pending(w1.events, k);
    assert p + n == Payloads(d) + p1;
    if i < |p| {
      EventMatching(w, dt, script, w1, l, k, i);
    } else {
      if p != [] {
        assert FirstServed(p, Asked(l, k), d, k);
        assert ServedAt(p, Asked(l, k), d, k, |p| - 1);
      }
      assert p1 == (p + n)[|d|..];
      assert p1 == n[|d| - |p|..];
    }
  }

  // ---- who is ended ----

  lemma EndedIffPending(events: seq<Event>, endon: seq<nat>)
    ensures IsEnded(events, endon) <==> exists k: Key :: k.name in endon && Pending(events, k) != []
  {
    if IsEnded(events, endon) {
      var i :| 0 <= i < |events| && events[i].active && events[i].key.name in endon;
      var j := IsPicked(events, PendingOn(events[i].key), i);
      assert Pending(events, events[i].key) != [];
    }
    if k: Key :| k.name in endon && Pending(events, k) != [] {
      Picked(events, PendingOn(k), 0);
      var i :| 0 <= i < |events| && PendingOn(k)(events[i]) == Some(Pending(events, k)[0]);
      assert events[i].active && events[i].key == k;
    }
  }

  /** As many events for the key have been delivered as were pending at the start or have been posted since. */
  predicate AllTaken(w: World, before: Log, k: Key) {
    |Pending(w.events, k)| + |Posted(before, k)| == |Delivered(before, k)|
  }

  /** All events with one of these names have been taken. */
  ghost predicate NothingEnds(w: World, before: Log, endon: seq<nat>) {
    forall k: Key :: k.name in endon ==> AllTaken(w, before, k)
  }

  /**
   * `endon`. A thread is freed in a tick exactly if it has returned from its last function, or if at its turn there is
   * an event with one of the names that end it, pending at the start or posted earlier in the tick, that no thread
   * before it has taken. `before` is what has happened in the tick until then.
   */
  lemma EndedExactly(w: World, dt: real, script: Script, w1: World, l: Log, i: nat)
    requires Conserved(w) && Tick(w, dt, script) == Success((w1, l)) && i < |w.queue|
    ensures |l.visits| == |w.queue| && l.visits[i].thread == w.queue[i] < |w.records|
    ensures Turns(w, i, TurnOf(dt, script)).Success?
    ensures var before, r := Turns(w, i, TurnOf(dt, script)).value.1, w.records[w.queue[i]];
            && before.posted <= l.posted && before.delivered <= l.delivered && before.visits == l.visits[..i]
            && (l.visits[i].kept <==> r.status != Inactive && NothingEnds(w, before, r.endon))
  {
    TurnIsProper(dt, script);
    TurnIsServer(dt, script);
    var w2 := TickTurns(w, dt, script, w1, l);
    TurnsEnd(w, TurnOf(dt, script), |w.queue|, w2, l, i);
  }

  lemma TickTurns(w: World, dt: real, script: Script, w1: World, l: Log) returns (w2: World)
    requires Tick(w, dt, script) == Success((w1, l))
    ensures Turns(w, |w.queue|, TurnOf(dt, script)) == Success((w2, l))
  {
    w2 := Turns(w, |w.queue|, TurnOf(dt, script)).value.0;
  }

  lemma TurnsEnd(w: World, step: Step, n: nat, w2: World, l: Log, i: nat)
    requires Proper(step) && Server(step) && Conserved(w) && n == |w.queue| && i < n && Turns(w, n, step) == Success((w2, l))
    ensures |l.visits| == n && l.visits[i].thread == w.queue[i] < |w.records|
    ensures Turns(w, i, step).Success?
    ensures var before, r := Turns(w, i, step).value.1, w.records[w.queue[i]];
            && before.posted <= l.posted && before.delivered <= l.delivered && before.visits == l.visits[..i]
            && (l.visits[i].kept <==> r.status != Inactive && NothingEnds(w, before, r.endon))
  {
    var m := n - i;
    var wi, before, wn, rest := TurnsInTwo(w, step, n, w2, l, i, m);
    TurnOfThread(w, step, n, w2, l, i);
    EndedAtTurn(w, step, i, w.queue[i], wi, before, m, wn, rest);
    LogInTwo(before, rest, l, i);
  }

  lemma TurnsInTwo(w: World, step: Step, n: nat, w2: World, l: Log, i: nat, m: nat)
    returns (wi: World, before: Log, wn: World, rest: Log)
    requires n == i + m && Turns(w, n, step) == Success((w2, l))
    ensures Turns(w, i, step) == Success((wi, before)) && Turns(wi, m, step) == Success((wn, rest))
    ensures l == Both(before, rest)
  {
    TurnsSplit(w, i, m, n, step);
    var (u, a) := Turns(w, i, step).value;
    var (v, b) := Turns(u, m, step).value;
    wi, before, wn, rest := u, a, v, b;
  }

  lemma TurnOfThread(w: World, step: Step, n: nat, w2: World, l: Log, i: nat)
    requires Proper(step) && Conserved(w) && n == |w.queue| && i < n && Turns(w, n, step) == Success((w2, l))
    ensures |l.visits| == n && l.visits[i].thread == w.queue[i] < |w.records|
  {
    OwnedApart(w, [], w.queue[i]);
    TurnsShape(w, n, step, w2, l);
    assert |Threads(l.visits)| == n;
  }

  lemma LogInTwo(before: Log, rest: Log, l: Log, i: nat)
    requires l == Both(before, rest) && |before.visits| == i && rest.visits != []
    ensures before.posted <= l.posted && before.delivered <= l.delivered
    ensures before.visits == l.visits[..i] && l.visits[i] == rest.visits[0]
  {
  }

  lemma EndedAtTurn(w: World, step: Step, i: nat, t: nat, wi: World, before: Log, m: nat, wn: World, rest: Log)
    requires Proper(step) && Server(step) && Conserved(w) && i < |w.queue| && w.queue[i] == t < |w.records| && m > 0
    requires Turns(w, i, step) == Success((wi, before)) && Turns(wi, m, step) == Success((wn, rest))
    ensures |before.visits| == i && rest.visits != [] && rest.visits[0].thread == t
    ensures var r := w.records[t];
            rest.visits[0].kept <==> r.status != Inactive && NothingEnds(w, before, r.endon)
  {
    var clear := ClearAtTurn(w, step, i, t, wi, before);
    FirstTurn(wi, m, step, wn, rest, t, clear);
  }

  /** Is there nothing that ends the thread when its turn comes? */
  lemma ClearAtTurn(w: World, step: Step, i: nat, t: nat, wi: World, before: Log) returns (clear: bool)
    requires Proper(step) && Server(step) && Conserved(w) && i < |w.queue| && w.queue[i] == t < |w.records|
    requires Turns(w, i, step) == Success((wi, before))
    ensures Conserved(wi) && |before.visits| == i
    ensures wi.queue != [] && wi.queue[0] == t < |wi.records| && wi.records[t] == w.records[t]
    ensures clear <==> NothingEnds(w, before, w.records[t].endon)
    ensures clear <==> !IsEnded(wi.events, wi.records[t].endon)
  {
    BeforeTurn(w, step, i, t, wi, before);
    EndedByTaken(w, wi, before, w.records[t].endon);
    clear := !IsEnded(wi.events, wi.records[t].endon);
  }

  lemma BeforeTurn(w: World, step: Step, i: nat, t: nat, wi: World, before: Log)
    requires Proper(step) && Server(step) && Conserved(w) && i < |w.queue| && w.queue[i] == t < |w.records|
    requires Turns(w, i, step) == Success((wi, before))
    ensures Conserved(wi) && Balanced(w, wi, before) && |before.visits| == i
    ensures wi.queue != [] && wi.queue[0] == t < |wi.records| && wi.records[t] == w.records[t]
  {
    TurnsShape(w, i, step, wi, before);
    TurnsBalance(w, i, step, wi, before);
    AtTurn(w, i, t, wi, before);
  }

  lemma AtTurn(w: World, i: nat, t: nat, wi: World, before: Log)
    requires i < |w.queue| && w.queue[i] == t < |w.records| && TurnsDo(w, i, wi, before)
    ensures wi.queue != [] && wi.queue[0] == t && wi.records[t] == w.records[t] && |before.visits| == i
  {
    assert w.queue[i..][0] == t;
    assert |Threads(before.visits)| == i;
  }

  lemma FirstTurn(w: World, n: nat, step: Step, w1: World, l: Log, t: nat, clear: bool)
    requires Proper(step) && Server(step) && Conserved(w) && w.queue != [] && 0 < n && Turns(w, n, step) == Success((w1, l))
    requires w.queue[0] == t < |w.records| && (clear <==> !IsEnded(w.events, w.records[t].endon))
    ensures l.visits != [] && l.visits[0].thread == t
    ensures l.visits[0].kept <==> w.records[t].status != Inactive && clear
  {
    var (wa, la) := step(w).value;
    assert TurnDoes(w, w.queue[0], wa, la) && Serves(w, w.queue[0], wa, la);
    assert la.visits[0] in la.visits;
    assert l.visits[0] == la.visits[0];
  }

  lemma EndedByTaken(w: World, wi: World, before: Log, endon: seq<nat>)
    requires Balanced(w, wi, before)
    ensures !IsEnded(wi.events, endon) <==> NothingEnds(w, before, endon)
  {
    EndedIffPending(wi.events, endon);
    forall k: Key ensures AllTaken(w, before, k) <==> Pending(wi.events, k) == [] {
      assert |Pending(w.events, k) + Posted(before, k)| == |Payloads(Delivered(before, k)) + Pending(wi.events, k)|;
    }
  }
}
