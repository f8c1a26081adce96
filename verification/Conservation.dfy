/**
 * What a tick does to the queue and to the pool: every thread gets one turn, in order, the threads it
 * starts come right behind what is queued and before itself, and no record is lost or handed out twice.
 */
module Conservation {
  import opened Wrappers
  import opened Scheduling

  /** How often a record is queued, free or in hand. */
  ghost function Places(w: World, hand: seq<nat>): multiset<nat> {
    multiset(w.queue) + multiset(w.free) + multiset(hand)
  }

  /** Every record is in one place. */
  ghost predicate Owned(w: World, hand: seq<nat>) {
    forall t: nat :: Places(w, hand)[t] == if t < |w.records| then 1 else 0
  }

  /** The state between turns. */
  ghost predicate Conserved(w: World) {
    Owned(w, []) && |w.queue| < |w.records|
  }

  // ---- what Conserved means ----

  lemma {:induction false} Times<T>(s: seq<T>, i: nat, x: T)
    requires i < |s| && s[i] == x
    ensures multiset(s)[x] == multiset(s[..i])[x] + 1 + multiset(s[i + 1..])[x]
  {
    assert s == s[..i] + [x] + s[i + 1..];
  }

  lemma OwnedApart(w: World, hand: seq<nat>, t: nat)
    requires Owned(w, hand)
    ensures t in w.queue || t in w.free || t in hand <==> t < |w.records|
    ensures !(t in w.queue && t in w.free) && !(t in w.queue && t in hand) && !(t in w.free && t in hand)
  {
    assert Places(w, hand)[t] == multiset(w.queue)[t] + multiset(w.free)[t] + multiset(hand)[t];
    assert t in w.queue <==> multiset(w.queue)[t] > 0;
    assert t in w.free <==> multiset(w.free)[t] > 0;
    assert t in hand <==> multiset(hand)[t] > 0;
  }

  lemma OnceEach(s: seq<nat>, i: nat, j: nat)
    requires i < j < |s| && multiset(s)[s[i]] <= 1
    ensures s[i] != s[j]
  {
    Times(s, i, s[i]);
    assert s[i + 1..][j - i - 1] == s[j];
  }

  lemma OwnedOnce(w: World, hand: seq<nat>, i: nat, j: nat)
    requires Owned(w, hand) && i < j
    ensures j < |w.queue| ==> w.queue[i] != w.queue[j]
    ensures j < |w.free| ==> w.free[i] != w.free[j]
  {
    if j < |w.queue| {
      var t := w.queue[i];
      assert Places(w, hand)[t] == multiset(w.queue)[t] + multiset(w.free)[t] + multiset(hand)[t];
      OnceEach(w.queue, i, j);
    }
    if j < |w.free| {
      var t := w.free[i];
      assert Places(w, hand)[t] == multiset(w.queue)[t] + multiset(w.free)[t] + multiset(hand)[t];
      OnceEach(w.free, i, j);
    }
  }

  lemma Range(n: nat, m: multiset<nat>)
    requires forall t: nat :: m[t] == if t < n then 1 else 0
    ensures |m| == n
    decreases n
  {
    if n == 0 {
      assert m == multiset{};
    } else {
      var t: nat := n - 1;
      var less := m[t := 0];
      assert m == less + multiset{t};
      Range(t, less);
    }
  }

  /** Between turns every record is either queued or free, each once, and the pool is not empty. */
  lemma ConservedIsPartition(w: World)
    requires Conserved(w)
    ensures forall t: nat :: t < |w.records| <==> t in w.queue || t in w.free
    ensures forall t: nat :: !(t in w.queue && t in w.free)
    ensures forall i, j :: 0 <= i < j < |w.queue| ==> w.queue[i] != w.queue[j]
    ensures forall i, j :: 0 <= i < j < |w.free| ==> w.free[i] != w.free[j]
    ensures |w.queue| + |w.free| == |w.records|
    ensures w.free != []
  {
    forall t: nat ensures t < |w.records| <==> t in w.queue || t in w.free
    {
      OwnedApart(w, [], t);
    }
    forall t: nat ensures !(t in w.queue && t in w.free)
    {
      OwnedApart(w, [], t);
    }
    forall i, j | 0 <= i < j < |w.queue| ensures w.queue[i] != w.queue[j] {
      OwnedOnce(w, [], i, j);
    }
    forall i, j | 0 <= i < j < |w.free| ensures w.free[i] != w.free[j] {
      OwnedOnce(w, [], i, j);
    }
    Range(|w.records|, Places(w, []));
    assert |Places(w, [])| == |w.queue| + |w.free|;
  }

  // ---- a running thread ----

  /** The records that may have changed are those of the thread and of the threads that it started. */
  ghost predicate OthersKept(w: World, w1: World, self: nat, spawned: seq<nat>) {
    && |w1.records| == |w.records|
    && forall t :: 0 <= t < |w.records| && t != self && t !in spawned ==> w1.records[t] == w.records[t]
  }

  ghost predicate AllFresh(w: World, spawned: seq<nat>) {
    forall i :: 0 <= i < |spawned| ==> spawned[i] < |w.records| && w.records[spawned[i]] == FRESH
  }

  /** New threads are taken from the front of the pool and put at the end of the queue. */
  ghost predicate Takes(w: World, w1: World, self: nat, spawned: seq<nat>) {
    && w1.queue == w.queue + spawned && w.free == spawned + w1.free
    && OthersKept(w, w1, self, spawned) && AllFresh(w1, spawned)
  }

  lemma PerformTakes(w: World, self: nat, a: Action, w1: World, l: Log)
    requires Perform(w, self, a) == Success((w1, l))
    ensures Takes(w, w1, self, l.spawned) && l.visits == [] && l.asked == []
  {
    if a.Spawn? {
      assert w.free == [w.free[0]] + w.free[1..];
    }
  }

  lemma TakesTwice(w: World, w1: World, w2: World, self: nat, s1: seq<nat>, s2: seq<nat>)
    requires Takes(w, w1, self, s1) && Takes(w1, w2, self, s2)
    requires self !in w.free && forall i, j :: 0 <= i < j < |w.free| ==> w.free[i] != w.free[j]
    ensures Takes(w, w2, self, s1 + s2)
  {
    assert w.free == s1 + s2 + w2.free;
    forall i | 0 <= i < |s1| ensures s1[i] != self && s1[i] !in s2 {
      assert w.free[i] == s1[i] && w.free[i] in w.free;
      forall j | 0 <= j < |s2| ensures s1[i] != s2[j] {
        var k := |s1| + j;
        assert w.free[k] == s2[j];
      }
    }
    forall i | 0 <= i < |s1 + s2| ensures (s1 + s2)[i] < |w2.records| && w2.records[(s1 + s2)[i]] == FRESH {
    }
  }

  lemma {:induction false} SpawnsAreTaken(w: World, self: nat, actions: seq<Action>, w1: World, l: Log)
    requires PerformAll(w, self, actions) == Success((w1, l))
    requires self !in w.free && forall i, j :: 0 <= i < j < |w.free| ==> w.free[i] != w.free[j]
    ensures Takes(w, w1, self, l.spawned) && l.visits == [] && l.asked == []
    decreases |actions|
  {
    if actions != [] {
      var n := |actions| - 1;
      var (w0, l0) := PerformAll(w, self, actions[..n]).value;
      SpawnsAreTaken(w, self, actions[..n], w0, l0);
      var (w2, l2) := Perform(w0, self, actions[n]).value;
      PerformTakes(w0, self, actions[n], w2, l2);
      TakesTwice(w, w0, w2, self, l0.spawned, l2.spawned);
    }
  }

  lemma OwnedMoves(w: World, hand: seq<nat>, w1: World, hand1: seq<nat>, spawned: seq<nat>)
    requires Owned(w, hand) && |w1.records| == |w.records|
    requires w.free == spawned + w1.free && w1.queue + hand1 == w.queue + spawned + hand
    ensures Owned(w1, hand1)
  {
    assert multiset(w.free) == multiset(spawned) + multiset(w1.free);
    var joined: seq<nat> := w1.queue + hand1;
    assert multiset(joined) == multiset(w1.queue) + multiset(hand1);
    assert multiset(joined) == multiset(w.queue) + multiset(spawned) + multiset(hand);
    forall t: nat ensures Places(w1, hand1)[t] == Places(w, hand)[t] {
      assert multiset(joined)[t] == multiset(w1.queue)[t] + multiset(hand1)[t];
    }
  }

  // ---- one turn ----

  function Stay(v: Visit): seq<nat> {
    v.spawned + if v.kept then [v.thread] else []
  }

  /** What one turn does, for the thread `t` that is at the front of the queue. */
  ghost predicate TurnDoes(w: World, t: nat, w1: World, l: Log) {
    && |l.visits| == 1 && l.visits[0].thread == t && l.visits[0].spawned == l.spawned
    && w.queue != [] && w1.queue == w.queue[1..] + Stay(l.visits[0])
    && (if l.visits[0].kept then w.free == l.spawned + w1.free else l.spawned == [] && w1.free == [t] + w.free)
    && OthersKept(w, w1, t, l.spawned) && AllFresh(w1, l.spawned)
  }

  lemma TurnShape(w: World, dt: real, script: Script, w1: World, l: Log)
    requires Conserved(w) && w.queue != [] && Turn(w, dt, script) == Success((w1, l))
    ensures w.queue[0] < |w.records| && TurnDoes(w, w.queue[0], w1, l)
    ensures Conserved(w1)
  {
    var t := w.queue[0];
    OwnedApart(w, [], t);
    var w0 := w.(queue := w.queue[1..]);
    InHand(w, w0, t);
    var r := w.records[t];
    if (r.status != Inactive && IsEnded(w.events, r.endon)) || r.status == Inactive {
      Freed(w, t, w0, w1);
    } else if r.status == Active {
      ActiveTurn(w, w0, t, dt, script(t), w1, l);
    } else {
      OwnedMoves(w0, [t], w1, [], []);
    }
  }

  lemma InHand(w: World, w0: World, t: nat)
    requires Conserved(w) && w.queue != [] && w.queue[0] == t && w0 == w.(queue := w.queue[1..])
    ensures Owned(w0, [t]) && t !in w.free && forall i, j :: 0 <= i < j < |w.free| ==> w.free[i] != w.free[j]
  {
    assert [t] + w0.queue == w.queue;
    assert multiset(w.queue) == multiset{t} + multiset(w0.queue);
    assert Places(w0, [t]) == Places(w, []);
    OwnedApart(w, [], t);
    forall i, j | 0 <= i < j < |w.free| ensures w.free[i] != w.free[j] {
      OwnedOnce(w, [], i, j);
    }
  }

  lemma ActiveTurn(w: World, w0: World, t: nat, dt: real, slice: Slice, w1: World, l: Log)
    requires Conserved(w) && w.queue != [] && w.queue[0] == t && w0 == w.(queue := w.queue[1..])
    requires t < |w.records| && w.records[t].status == Active && !IsEnded(w.events, w.records[t].endon)
    requires Process(w0, t, dt, slice) == Success((w1, l))
    ensures TurnDoes(w, t, w1, l) && Conserved(w1)
  {
    InHand(w, w0, t);
    var (w2, l2) := PerformAll(w0, t, slice.actions).value;
    SpawnsAreTaken(w0, t, slice.actions, w2, l2);
    var s := l2.spawned;
    assert w1.queue == w2.queue + [t] == w.queue[1..] + (s + [t]);
    forall i | 0 <= i < |s| ensures s[i] != t {
      assert w.free[i] == s[i];
    }
    OwnedMoves(w0, [t], w1, [], s);
  }

  lemma Freed(w: World, t: nat, w0: World, w1: World)
    requires Conserved(w) && Owned(w0, [t])
    requires w.queue != [] && w1.queue == w0.queue == w.queue[1..]
    requires w1.free == [t] + w0.free && |w1.records| == |w0.records| == |w.records|
    ensures Conserved(w1)
  {
    assert Places(w1, []) == Places(w0, [t]);
  }

  // ---- one tick ----

  function Threads(visits: seq<Visit>): (r: seq<nat>)
    ensures |r| == |visits| && forall i :: 0 <= i < |r| ==> r[i] == visits[i].thread
  {
    seq(|visits|, i requires 0 <= i < |visits| => visits[i].thread)
  }

  /** What the turns leave in the queue: for every thread those that it started, and then itself if it stays. */
  function Stays(visits: seq<Visit>): seq<nat> {
    if visits == [] then [] else Stay(visits[0]) + Stays(visits[1..])
  }

  ghost predicate TurnsDo(w: World, n: nat, w1: World, l: Log)
    requires n <= |w.queue|
  {
    && Threads(l.visits) == w.queue[..n]
    && w1.queue == w.queue[n..] + Stays(l.visits)
    && |w1.records| == |w.records|
    && forall t: nat :: t in w.queue[n..] && t < |w.records| ==> w1.records[t] == w.records[t]
  }

  /** What the turns of a tick have in common. */
  ghost predicate Proper(step: Step) {
    forall w: World {:trigger step(w)} :: Conserved(w) && w.queue != [] && step(w).Success? ==>
      TurnDoes(w, w.queue[0], step(w).value.0, step(w).value.1) && Conserved(step(w).value.0)
  }

  lemma TurnIsProper(dt: real, script: Script)
    ensures Proper(TurnOf(dt, script))
  {
    var step := TurnOf(dt, script);
    forall w: World | Conserved(w) && w.queue != [] && step(w).Success?
      ensures TurnDoes(w, w.queue[0], step(w).value.0, step(w).value.1) && Conserved(step(w).value.0)
    {
      TurnShape(w, dt, script, step(w).value.0, step(w).value.1);
    }
  }

  lemma {:induction false} TurnsShape(w: World, n: nat, step: Step, w1: World, l: Log)
    requires Proper(step) && Conserved(w) && n <= |w.queue| && Turns(w, n, step) == Success((w1, l))
    ensures Conserved(w1) && TurnsDo(w, n, w1, l)
    decreases n
  {
    if n == 0 {
      assert w.queue[..0] == [] && w.queue[0..] == w.queue;
    } else {
      var (wa, la) := step(w).value;
      var (wb, lb) := Turns(wa, n - 1, step).value;
      TurnsShape(wa, n - 1, step, wb, lb);
      FirstAndRest(w, n, wa, la, wb, lb);
    }
  }

  lemma FirstAndRest(w: World, n: nat, wa: World, la: Log, wb: World, lb: Log)
    requires Conserved(w) && 0 < n <= |w.queue| && TurnDoes(w, w.queue[0], wa, la)
    requires n - 1 <= |wa.queue| && TurnsDo(wa, n - 1, wb, lb)
    ensures TurnsDo(w, n, wb, Both(la, lb))
  {
    var v := la.visits[0];
    Queues(w.queue, n, v, wa.queue, lb.visits, wb.queue, la.visits + lb.visits);
    forall t: nat | t in w.queue[n..] && t < |w.records| ensures wb.records[t] == w.records[t] {
      var i :| n <= i < |w.queue| && w.queue[i] == t;
      OwnedOnce(w, [], 0, i);
      OwnedApart(w, [], t);
      assert forall s :: s in la.spawned ==> s in w.free;
      assert t in wa.queue[n - 1..];
    }
  }

  lemma Queues(queue: seq<nat>, n: nat, v: Visit, queue1: seq<nat>, rest: seq<Visit>, queue2: seq<nat>, visits: seq<Visit>)
    requires 0 < n <= |queue| && v.thread == queue[0] && queue1 == queue[1..] + Stay(v) && visits == [v] + rest
    requires Threads(rest) == queue1[..n - 1] && queue2 == queue1[n - 1..] + Stays(rest)
    ensures Threads(visits) == queue[..n] && queue2 == queue[n..] + Stays(visits)
    ensures queue1[n - 1..] == queue[n..] + Stay(v)
  {
    assert visits[1..] == rest && visits[0] == v;
    assert queue1[n - 1..] == queue[n..] + Stay(v);
    assert queue2 == queue[n..] + (Stay(v) + Stays(rest));
    assert Threads(visits) == [queue[0]] + queue1[..n - 1];
    assert queue[..n] == [queue[0]] + queue1[..n - 1];
  }

  /** A turn from `v`, and then the rest of `m` turns. */
  ghost predicate Together(step: Step, v: World, wa: World, la: Log, m: nat, wb: World, lb: Log) {
    && Proper(step) && Conserved(v) && 0 < m <= |v.queue| && step(v) == Success((wa, la))
    && Turns(wa, m - 1, step) == Success((wb, lb))
  }

  /** A claim about worlds before and after turns that holds of none, and of one more if it holds of the rest. */
  ghost predicate Inductive(step: Step, claim: (World, World, Log) -> bool) {
    && (forall v: World :: claim(v, v, NOTHING))
    && forall v: World, wa: World, la: Log, m: nat, wb: World, lb: Log {:trigger Together(step, v, wa, la, m, wb, lb)} ::
         Together(step, v, wa, la, m, wb, lb) && claim(wa, wb, lb) ==> claim(v, wb, Both(la, lb))
  }

  lemma {:induction false} TurnsInduct(w: World, n: nat, step: Step, w1: World, l: Log, claim: (World, World, Log) -> bool)
    requires Inductive(step, claim) && Proper(step) && Conserved(w) && n <= |w.queue|
    requires Turns(w, n, step) == Success((w1, l))
    ensures claim(w, w1, l)
    decreases n
  {
    if n > 0 {
      var (wa, la) := step(w).value;
      var (wb, lb) := Turns(wa, n - 1, step).value;
      AfterFirst(w, step, wa, la);
      TurnsInduct(wa, n - 1, step, wb, lb, claim);
      assert Together(step, w, wa, la, n, wb, lb);
    }
  }

  lemma AfterFirst(w: World, step: Step, wa: World, la: Log)
    requires Proper(step) && Conserved(w) && w.queue != [] && step(w) == Success((wa, la))
    ensures TurnDoes(w, w.queue[0], wa, la) && Conserved(wa) && |w.queue| - 1 <= |wa.queue|
  {
  }

  lemma Parts(step: Step, v: World, wa: World, la: Log, m: nat, wb: World, lb: Log)
    requires Together(step, v, wa, la, m, wb, lb)
    ensures v.queue != [] && TurnDoes(v, v.queue[0], wa, la)
    ensures m <= |v.queue| && m - 1 <= |wa.queue| && TurnsDo(wa, m - 1, wb, lb)
  {
    AfterFirst(v, step, wa, la);
    TurnsShape(wa, m - 1, step, wb, lb);
  }

  /**
   * The tick law: every thread that is queued at the start gets exactly one turn, in the order of the
   * queue; nothing that is started in the tick gets one; and the queue is afterwards, for one thread
   * after the other, what it started and then the thread itself unless it was freed.
   */
  lemma TickOrder(w: World, dt: real, script: Script, w1: World, l: Log)
    requires Conserved(w) && Tick(w, dt, script) == Success((w1, l))
    ensures Conserved(w1) && |w1.records| == |w.records|
    ensures Threads(l.visits) == w.queue
    ensures w1.queue == Stays(l.visits)
  {
    TurnIsProper(dt, script);
    var (w2, l2) := Turns(w, |w.queue|, TurnOf(dt, script)).value;
    AllTurnsOrder(w, TurnOf(dt, script), w2, l2);
    EventsDoNotMatter(w2, w1.events);
  }

  /** A thread that is started in a tick is at its end as it was when it was started. */
  lemma StartedIsFresh(w: World, dt: real, script: Script, w1: World, l: Log)
    requires Conserved(w) && Tick(w, dt, script) == Success((w1, l))
    ensures AllFresh(w1, l.spawned)
  {
    TurnIsProper(dt, script);
    var (w2, l2) := Turns(w, |w.queue|, TurnOf(dt, script)).value;
    TurnsFresh(w, |w.queue|, TurnOf(dt, script), w2, l2);
  }

  lemma TurnsFresh(w: World, n: nat, step: Step, w1: World, l: Log)
    requires Proper(step) && Conserved(w) && n <= |w.queue| && Turns(w, n, step) == Success((w1, l))
    ensures AllFresh(w1, l.spawned)
  {
    var claim := (v: World, u: World, k: Log) => AllFresh(u, k.spawned);
    forall v: World, wa: World, la: Log, m: nat, wb: World, lb: Log
      {:trigger Together(step, v, wa, la, m, wb, lb)}
      | Together(step, v, wa, la, m, wb, lb) && claim(wa, wb, lb)
      ensures claim(v, wb, Both(la, lb))
    {
      Parts(step, v, wa, la, m, wb, lb);
      FreshTogether(v, m, wa, la, wb, lb);
    }
    TurnsInduct(w, n, step, w1, l, claim);
  }

  lemma FreshTogether(w: World, n: nat, wa: World, la: Log, wb: World, lb: Log)
    requires 0 < n <= |w.queue| && TurnDoes(w, w.queue[0], wa, la)
    requires n - 1 <= |wa.queue| && TurnsDo(wa, n - 1, wb, lb) && AllFresh(wb, lb.spawned)
    ensures AllFresh(wb, la.spawned + lb.spawned)
  {
    forall i | 0 <= i < |la.spawned| ensures la.spawned[i] < |wb.records| && wb.records[la.spawned[i]] == FRESH {
      var j := |w.queue| - 1 + i;
      assert wa.queue[j] == la.spawned[i];
      assert wa.queue[n - 1..][j - (n - 1)] == la.spawned[i];
      assert la.spawned[i] in wa.queue[n - 1..];
    }
  }

  lemma AllTurnsOrder(w: World, step: Step, w1: World, l: Log)
    requires Proper(step) && Conserved(w) && Turns(w, |w.queue|, step) == Success((w1, l))
    ensures Threads(l.visits) == w.queue && w1.queue == Stays(l.visits) && |w1.records| == |w.records|
    ensures Conserved(w1)
  {
    var n := |w.queue|;
    TurnsShape(w, n, step, w1, l);
    WholeQueue(w.queue, n, Stays(l.visits));
  }

  lemma WholeQueue(queue: seq<nat>, n: nat, rest: seq<nat>)
    requires n == |queue|
    ensures queue[..n] == queue && queue[n..] + rest == rest
  {
  }

  lemma EventsDoNotMatter(w: World, events: seq<Event>)
    requires Conserved(w)
    ensures Conserved(w.(events := events))
  {
    assert Places(w.(events := events), []) == Places(w, []);
  }

  // ---- turns in two parts ----

  lemma {:induction false} TurnsSplit(w: World, m: nat, k: nat, n: nat, step: Step)
    requires n == m + k
    ensures match Turns(w, m, step)
            case Failure(e) => Turns(w, n, step) == Failure(e)
            case Success((w1, l1)) =>
              match Turns(w1, k, step)
              case Failure(e) => Turns(w, n, step) == Failure(e)
              case Success((w2, l2)) => Turns(w, n, step) == Success((w2, Both(l1, l2)))
    decreases m
  {
    if m == 0 {
      if Turns(w, k, step).Success? {
        BothNothing(Turns(w, k, step).value.1);
      }
    } else if step(w).Success? {
      var (w1, l1) := step(w).value;
      TurnsSplit(w1, m - 1, k, n - 1, step);
      if Turns(w1, m - 1, step).Success? {
        var (w2, l2) := Turns(w1, m - 1, step).value;
        if Turns(w2, k, step).Success? {
          BothTwice(l1, l2, Turns(w2, k, step).value.1);
        }
      }
    }
  }

  lemma BothNothing(l: Log)
    ensures Both(NOTHING, l) == l == Both(l, NOTHING)
  {
  }

  lemma BothTwice(a: Log, b: Log, c: Log)
    ensures Both(Both(a, b), c) == Both(a, Both(b, c))
  {
    assert a.posted + b.posted + c.posted == a.posted + (b.posted + c.posted);
    assert a.delivered + b.delivered + c.delivered == a.delivered + (b.delivered + c.delivered);
    assert a.asked + b.asked + c.asked == a.asked + (b.asked + c.asked);
    assert a.spawned + b.spawned + c.spawned == a.spawned + (b.spawned + c.spawned);
    assert a.visits + b.visits + c.visits == a.visits + (b.visits + c.visits);
  }

  // ---- the limit of the ring ----

  /**
   * The pool has one record more than the ring has places: a turn in which everything that the thread
   * does succeeds fails all the same, for want of a place for the thread itself, exactly when the thread
   * has taken the last record.
   */
  lemma LastRecordIsOneTooMany(w: World, dt: real, script: Script, w2: World, l2: Log)
    requires Conserved(w) && w.queue != []
    requires w.queue[0] < |w.records| && w.records[w.queue[0]].status == Active
    requires !IsEnded(w.events, w.records[w.queue[0]].endon)
    requires PerformAll(w.(queue := w.queue[1..]), w.queue[0], script(w.queue[0]).actions) == Success((w2, l2))
    ensures Turn(w, dt, script).Success? <==> |l2.spawned| < |w.free|
    ensures Turn(w, dt, script).Failure? ==> Turn(w, dt, script) == Failure(QueueFull)
  {
    var t := w.queue[0];
    OwnedApart(w, [], t);
    InHand(w, w.(queue := w.queue[1..]), t);
    SpawnsAreTaken(w.(queue := w.queue[1..]), t, script(t).actions, w2, l2);
    ConservedIsPartition(w);
  }
}
