/**
 * How a thread pauses and goes on, from what it executes: `wait`, `waittill`, the end of its last function. The
 * statements are about the action and the following ticks, not about the record in between.
 */
module Pauses {
  import opened Wrappers
  import opened Scheduling
  import opened Conservation
  import opened Delivery
  import opened Waiting
  import opened Episodes
  import opened Performed

  // ---- the tick in which a thread runs ----

  lemma {:induction false} NamesAre(actions: seq<Action>, x: nat)
    ensures x in Names(actions) <==> EndOn(x) in actions
    decreases |actions|
  {
    if actions != [] {
      var n := |actions| - 1;
      assert actions == actions[..n] + [actions[n]];
      NamesAre(actions[..n], x);
    }
  }

  /** The slice leaves the thread in the state that it ends with, and adds exactly its `endon` names. */
  lemma SliceEnds(w: World, dt: real, script: Script, w1: World, l: Log, t: nat)
    requires Conserved(w) && Tick(w, dt, script) == Success((w1, l)) && t in w.queue && t < |w.records|
    requires w.records[t].status == Active && KeptIn(l.visits, t)
    ensures Conserved(w1) && t in w1.queue && t < |w1.records|
    ensures match script(t).end
            case Finish => w1.records[t].status == Inactive
            case WaitFor(d) => w1.records[t].status == WaitingTime && w1.records[t].wait == d
            case WaitFrame => w1.records[t].status == WaitingFrame
            case WaitTill(k, n) =>
              w1.records[t].status == WaitingEvent && w1.records[t].key == k && w1.records[t].wants == if n < 16 then n else 16
    ensures forall x :: x in w1.records[t].endon <==> x in w.records[t].endon || EndOn(x) in script(t).actions
  {
    TickOrder(w, dt, script, w1, l);
    TickMoves(w, dt, script, w1, l, t);
    forall x ensures x in w1.records[t].endon <==> x in w.records[t].endon || EndOn(x) in script(t).actions {
      NamesAre(script(t).actions, x);
    }
  }

  /** An active thread that is not ended performs its actions in the tick: what it notifies is among the events of the tick. */
  lemma ActiveRuns(w: World, dt: real, script: Script, w1: World, l: Log, t: nat, k: Key)
    returns (before: seq<seq<int>>, after: seq<seq<int>>)
    requires Conserved(w) && Tick(w, dt, script) == Success((w1, l)) && t in w.queue && t < |w.records|
    requires w.records[t].status == Active && KeptIn(l.visits, t)
    ensures Posted(l, k) == before + Notified(script(t).actions, k) + after
  {
    TickTells(w, dt, script, w1, l, k);
    var i :| 0 <= i < |l.visits| && l.visits[i] == Visit(t, l.visits[i].spawned, true);
    before, after := RunsAmong(w.records, l.visits, script, i, k);
  }

  lemma RunsAmong(records: seq<Record>, visits: seq<Visit>, script: Script, i: nat, k: Key)
    returns (before: seq<seq<int>>, after: seq<seq<int>>)
    requires i < |visits| && visits[i].kept && visits[i].thread < |records| && records[visits[i].thread].status == Active
    ensures Notified(Ran(records, visits, script), k) == before + Notified(script(visits[i].thread).actions, k) + after
  {
    var a, b := visits[..i], visits[i + 1..];
    var ran, own, rest := Ran(records, a, script), script(visits[i].thread).actions, Ran(records, b, script);
    assert visits == a + ([visits[i]] + b);
    RanJoins(records, a, [visits[i]] + b, script);
    assert ([visits[i]] + b)[1..] == b;
    PickJoins(ran, own + rest, NotifyOf(k));
    PickJoins(own, rest, NotifyOf(k));
    before, after := Notified(ran, k), Notified(rest, k);
    Regrouped(before, Notified(own, k), after);
  }

  lemma Regrouped<T>(a: seq<T>, b: seq<T>, c: seq<T>)
    ensures a + (b + c) == a + b + c
  {
  }

  // ---- wait ----

  /** Nothing can end the thread, neither from before nor by what it does now. */
  predicate Unendable(w: World, t: nat, f: Frame) {
    t < |w.records| && w.records[t].endon == [] && forall a :: a in f.script(t).actions ==> !a.EndOn?
  }

  /** The thread lives through the ticks: nothing can end it, or nothing does. */
  ghost predicate LivesOn(w: World, t: nat, all: seq<Frame>)
    requires all != []
  {
    Unendable(w, t, all[0]) || Survives(w, t, all)
  }

  /** The first tick of several, in which the thread waits from its last action on. */
  lemma BeginsToWait(w: World, t: nat, d: real, first: Frame, frames: seq<Frame>, all: seq<Frame>) returns (w1: World)
    requires Conserved(w) && t in w.queue && t < |w.records| && w.records[t].status == Active
    requires first.script(t).end == WaitFor(d)
    requires all == [first] + frames && Ticks(w, all).Success? && LivesOn(w, t, all)
    ensures Conserved(w1) && t in w1.queue && t < |w1.records|
    ensures w1.records[t].status == WaitingTime && w1.records[t].wait == d && NotEnded(w1, t, frames)
    ensures Ticks(w1, frames).Success? && Ticks(w1, frames).value.0 == Ticks(w, all).value.0
  {
    assert all[0] == first && all[1..] == frames;
    var (next, l) := Tick(w, first.dt, first.script).value;
    w1 := next;
    TickMoves(w, first.dt, first.script, w1, l, t);
    SliceEnds(w, first.dt, first.script, w1, l, t);
    if Unendable(w, t, first) {
      NoNames(w1.records[t].endon);
    }
  }

  lemma NoNames(s: seq<nat>)
    ensures s == [] || exists x :: x in s
  {
    if s != [] {
      assert s[0] in s;
    }
  }

  /** A thread that executes `wait d` is still waiting after that tick and up to ceil(d/dt) more. */
  lemma ExecutedWaitLasts(w: World, t: nat, d: real, dt: real, n: nat, first: Frame, frames: seq<Frame>, all: seq<Frame>)
    requires Conserved(w) && t in w.queue && t < |w.records| && w.records[t].status == Active
    requires first.script(t).end == WaitFor(d) && dt > 0.0 && RoundedUp(d, dt, n)
    requires |frames| <= n && forall j :: 0 <= j < |frames| ==> frames[j].dt == dt
    requires all == [first] + frames && Ticks(w, all).Success? && LivesOn(w, t, all)
    ensures var w1 := Ticks(w, all).value.0; t < |w1.records| && w1.records[t].status == WaitingTime
  {
    var w1 := BeginsToWait(w, t, d, first, frames, all);
    WaitsThroughEvenTicks(w1, t, d, dt, n, frames, Ticks(w1, frames).value.0, Ticks(w1, frames).value.1);
  }

  /** And one tick later it is active: it goes on in the tick ceil(d/dt) + 2 after the one in which it executed `wait d`. */
  lemma ExecutedWaitEnds(w: World, t: nat, d: real, dt: real, n: nat, first: Frame, frames: seq<Frame>, all: seq<Frame>)
    requires Conserved(w) && t in w.queue && t < |w.records| && w.records[t].status == Active
    requires first.script(t).end == WaitFor(d) && dt > 0.0 && RoundedUp(d, dt, n)
    requires |frames| == n + 1 && forall j :: 0 <= j < |frames| ==> frames[j].dt == dt
    requires all == [first] + frames && Ticks(w, all).Success? && LivesOn(w, t, all)
    ensures var w1 := Ticks(w, all).value.0; t < |w1.records| && w1.records[t].status == Active
  {
    var w1 := BeginsToWait(w, t, d, first, frames, all);
    assert frames == frames[..n] + [frames[n]];
    WakesAfterEvenTicks(w1, t, d, dt, n, frames[..n], frames[n], frames, Ticks(w1, frames).value.0);
  }

  /** A `wait` without a time takes one tick. */
  lemma ExecutedFrameWait(w: World, dt: real, script: Script, w1: World, l: Log, dt1: real, script1: Script, w2: World, l2: Log,
                          t: nat)
    requires Conserved(w) && Tick(w, dt, script) == Success((w1, l)) && t in w.queue && t < |w.records|
    requires w.records[t].status == Active && KeptIn(l.visits, t) && script(t).end == WaitFrame
    requires Tick(w1, dt1, script1) == Success((w2, l2)) && KeptIn(l2.visits, t)
    ensures t < |w1.records| && w1.records[t].status != Active
    ensures t in w2.queue && t < |w2.records| && w2.records[t].status == Active
  {
    SliceEnds(w, dt, script, w1, l, t);
    TickMoves(w1, dt1, script1, w2, l2, t);
  }

  // ---- the end of a thread ----

  /** What a turn starts is in the log of the tick. */
  ghost predicate SpawnsLogged(l: Log) {
    forall v, x :: v in l.visits && x in v.spawned ==> x in l.spawned
  }

  /** What is started is queued. */
  ghost predicate SpawnsQueued(w1: World, l: Log) {
    forall x :: x in l.spawned ==> x in w1.queue
  }

  lemma NothingSpawns()
    ensures SpawnsLogged(NOTHING) && forall w1: World :: SpawnsQueued(w1, NOTHING)
  {
  }

  lemma SpawnsTogether(w: World, n: nat, wa: World, la: Log, wb: World, lb: Log)
    requires 0 < n <= |w.queue| && TurnDoes(w, w.queue[0], wa, la)
    requires n - 1 <= |wa.queue| && TurnsDo(wa, n - 1, wb, lb) && SpawnsLogged(lb) && SpawnsQueued(wb, lb)
    ensures SpawnsLogged(Both(la, lb)) && SpawnsQueued(wb, Both(la, lb))
  {
    var l := Both(la, lb);
    assert la.visits == [la.visits[0]];
    forall x | x in l.spawned ensures x in wb.queue {
      if x !in lb.spawned {
        var i :| 0 <= i < |la.spawned| && la.spawned[i] == x;
        var j := |w.queue| - 1 + i;
        assert wa.queue[j] == x;
        assert wa.queue[n - 1..][j - (n - 1)] == x;
      }
    }
  }

  lemma TurnsSpawn(w: World, n: nat, step: Step, w1: World, l: Log)
    requires Proper(step) && Conserved(w) && n <= |w.queue| && Turns(w, n, step) == Success((w1, l))
    ensures SpawnsLogged(l) && SpawnsQueued(w1, l)
  {
    var claim := (v: World, u: World, r: Log) => SpawnsLogged(r) && SpawnsQueued(u, r);
    NothingSpawns();
    forall v: World, wa: World, la: Log, m: nat, wb: World, lb: Log
      {:trigger Together(step, v, wa, la, m, wb, lb)}
      | Together(step, v, wa, la, m, wb, lb) && claim(wa, wb, lb)
      ensures claim(v, wb, Both(la, lb))
    {
      Parts(step, v, wa, la, m, wb, lb);
      SpawnsTogether(v, m, wa, la, wb, lb);
    }
    TurnsInduct(w, n, step, w1, l, claim);
  }

  lemma TickSpawns(w: World, dt: real, script: Script, w1: World, l: Log)
    requires Conserved(w) && Tick(w, dt, script) == Success((w1, l))
    ensures SpawnsLogged(l) && SpawnsQueued(w1, l)
  {
    TurnIsProper(dt, script);
    var (w2, l2) := Turns(w, |w.queue|, TurnOf(dt, script)).value;
    TurnsSpawn(w, |w.queue|, TurnOf(dt, script), w2, l2);
  }

  lemma {:induction false} StaysAre(visits: seq<Visit>, x: nat)
    requires x in Stays(visits)
    ensures exists i :: 0 <= i < |visits| && (x in visits[i].spawned || visits[i] == Visit(x, visits[i].spawned, true))
    decreases |visits|
  {
    var v := visits[0];
    if x in Stay(v) {
      assert x in v.spawned || v == Visit(x, v.spawned, true);
    } else {
      StaysAre(visits[1..], x);
      var i :| 0 <= i < |visits[1..]|
        && (x in visits[1..][i].spawned || visits[1..][i] == Visit(x, visits[1..][i].spawned, true));
      assert visits[1..][i] == visits[i + 1];
    }
  }

  /** The record of a thread that is freed is in the pool again, or already that of a thread that was started after it. */
  lemma FreedRecord(w: World, dt: real, script: Script, w1: World, l: Log, t: nat)
    requires Conserved(w) && Tick(w, dt, script) == Success((w1, l)) && t in w.queue && !KeptIn(l.visits, t)
    ensures t in w1.free || t in l.spawned
  {
    OwnedApart(w, [], t);
    TickOrder(w, dt, script, w1, l);
    OwnedApart(w1, [], t);
    TickSpawns(w, dt, script, w1, l);
    if t in w1.queue {
      StaysAre(l.visits, t);
      var i :| 0 <= i < |l.visits| && (t in l.visits[i].spawned || l.visits[i] == Visit(t, l.visits[i].spawned, true));
      assert l.visits[i] in l.visits;
    }
  }

  /** A thread that returns from its last function is freed in the next tick, and performs nothing any more. */
  lemma ExecutedFinish(w: World, dt: real, script: Script, w1: World, l: Log, dt1: real, script1: Script, w2: World, l2: Log,
                       t: nat)
    requires Conserved(w) && Tick(w, dt, script) == Success((w1, l)) && t in w.queue && t < |w.records|
    requires w.records[t].status == Active && KeptIn(l.visits, t) && script(t).end == Finish
    requires Tick(w1, dt1, script1) == Success((w2, l2))
    ensures t in w1.queue && !KeptIn(l2.visits, t) && (t in w2.free || t in l2.spawned)
    ensures forall v :: v in l2.visits && v.thread == t ==> RanBy(w1.records, v, script1) == []
  {
    SliceEnds(w, dt, script, w1, l, t);
    TickMoves(w1, dt1, script1, w2, l2, t);
    FreedRecord(w1, dt1, script1, w2, l2, t);
  }

  // ---- the beginning of a thread ----

  /** A thread that is started in a tick performs its first slice in the next one. */
  lemma StartedRuns(w: World, dt: real, script: Script, w1: World, l: Log, dt1: real, script1: Script, w2: World, l2: Log, t: nat)
    requires Conserved(w) && Tick(w, dt, script) == Success((w1, l)) && t in l.spawned
    requires Tick(w1, dt1, script1) == Success((w2, l2))
    ensures t in w1.queue && t < |w1.records| && w1.records[t].status == Active && KeptIn(l2.visits, t)
    ensures forall v :: v in l2.visits && v.thread == t ==> RanBy(w1.records, v, script1) == script1(t).actions
  {
    TickOrder(w, dt, script, w1, l);
    StartedIsFresh(w, dt, script, w1, l);
    TickSpawns(w, dt, script, w1, l);
    var i :| 0 <= i < |l.spawned| && l.spawned[i] == t;
    RunsAtOnce(w1, dt1, script1, w2, l2, t);
  }

  lemma RunsAtOnce(w: World, dt: real, script: Script, w1: World, l: Log, t: nat)
    requires Conserved(w) && Tick(w, dt, script) == Success((w1, l)) && t in w.queue
    requires t < |w.records| && w.records[t].status == Active && w.records[t].endon == []
    ensures KeptIn(l.visits, t)
    ensures forall v :: v in l.visits && v.thread == t ==> RanBy(w.records, v, script) == script(t).actions
  {
    TickOrder(w, dt, script, w1, l);
    TickMoves(w, dt, script, w1, l, t);
    ConservedIsPartition(w);
    var i :| 0 <= i < |l.visits| && l.visits[i] == Visit(t, l.visits[i].spawned, true);
    forall v | v in l.visits && v.thread == t ensures v.kept {
      var j :| 0 <= j < |l.visits| && l.visits[j] == v;
      assert w.queue[i] == Threads(l.visits)[i] == t;
      assert w.queue[j] == Threads(l.visits)[j] == t;
      assert i == j;
    }
  }

  /** So does one that the host starts, unless there is no room for it; it is queued behind all others. */
  lemma CalledRuns(w: World, w1: World, l: Log, dt: real, script: Script, w2: World, l2: Log) returns (t: nat)
    requires Conserved(w) && Make(w, Call) == Success((w1, l)) && Tick(w1, dt, script) == Success((w2, l2))
    ensures w1.queue == w.queue + [t] && t in w.free && t !in w1.free && KeptIn(l2.visits, t) && t < |w1.records|
    ensures forall v :: v in l2.visits && v.thread == t ==> RanBy(w1.records, v, script) == script(t).actions
    ensures w1.events == w.events && forall x :: 0 <= x < |w.records| && x != t ==> w1.records[x] == w.records[x]
  {
    t := w.free[0];
    MoveConserves(w, Call, w1, l);
    assert w1.queue[|w.queue|] == t;
    RunsAtOnce(w1, dt, script, w2, l2, t);
    OwnedApart(w1, [], t);
  }

  // ---- waittill ----

  /**
   * The i-th thread that waits for a key gets, variable by variable, the values of the i-th pending event, as many
   * as it has variables or the event has values, and is active; the rest of its record is as before.
   */
  lemma InboxByIndex(w: World, dt: real, script: Script, w1: World, l: Log, k: Key, i: nat) returns (inbox: seq<int>)
    requires Conserved(w) && Tick(w, dt, script) == Success((w1, l))
    requires i < |Waiters(w.records, l.visits, k)| && i < |Pending(w.events, k)|
    ensures var t, payload := Waiters(w.records, l.visits, k)[i], Pending(w.events, k)[i];
            && t < |w.records| == |w1.records|
            && w1.records[t] == w.records[t].(status := Active, inbox := Some(inbox))
            && |inbox| == (if w.records[t].wants < |payload| then w.records[t].wants else |payload|)
            && forall j :: 0 <= j < |inbox| ==> inbox[j] == payload[j]
  {
    EventMatching(w, dt, script, w1, l, k, i);
    inbox := w1.records[Waiters(w.records, l.visits, k)[i]].inbox.value;
  }

  /** A thread that stays and waits for a key is one of those that wait for it; if no other does, it is the first. */
  lemma OnlyWaiter(w: World, dt: real, script: Script, w1: World, l: Log, k: Key, t: nat)
    requires Conserved(w) && Tick(w, dt, script) == Success((w1, l)) && KeptIn(l.visits, t)
    requires t in w.queue && t < |w.records| && WaitsFor(w.records[t], k)
    requires forall x :: x in w.queue && x != t && x < |w.records| ==> !WaitsFor(w.records[x], k)
    ensures Waiters(w.records, l.visits, k) != [] && Waiters(w.records, l.visits, k)[0] == t
  {
    TickOrder(w, dt, script, w1, l);
    var f := WaitingIn(w.records, k);
    var i :| 0 <= i < |l.visits| && l.visits[i] == Visit(t, l.visits[i].spawned, true);
    var m := IsPicked(l.visits, f, i);
    Picked(l.visits, f, 0);
    var j :| 0 <= j < |l.visits| && f(l.visits[j]) == Some(Pick(l.visits, f)[0]);
    assert Threads(l.visits)[j] == l.visits[j].thread;
  }

  /**
   * From `waittill` to `notify`. A thread executes `waittill` for a key, with `n` variables; no event for the key is
   * pending and no other thread waits for it; the host notifies the key with some values. Then the thread is active
   * after the next tick, if it is not ended, and has the first of the values, at most `n` and at most 16.
   */
  lemma NotifyWakes(w: World, dt: real, script: Script, w1: World, l1: Log, t: nat, k: Key, n: nat, payload: seq<int>,
                    w2: World, l2: Log, dt3: real, script3: Script, w3: World, l3: Log) returns (inbox: seq<int>)
    requires Conserved(w) && Tick(w, dt, script) == Success((w1, l1)) && t in w.queue && t < |w.records|
    requires w.records[t].status == Active && KeptIn(l1.visits, t) && script(t).end == WaitTill(k, n)
    requires Pending(w1.events, k) == []
    requires forall x :: x in w1.queue && x != t && x < |w1.records| ==> !WaitsFor(w1.records[x], k)
    requires Make(w1, Post(k, payload)) == Success((w2, l2))
    requires Tick(w2, dt3, script3) == Success((w3, l3)) && KeptIn(l3.visits, t)
    ensures t < |w1.records| == |w3.records| && w1.records[t].status != Active
    ensures w3.records[t].status == Active && w3.records[t].inbox == Some(inbox)
    ensures |inbox| <= n && |inbox| <= 16 && |inbox| <= |payload| && |inbox| in {n, 16, |payload|}
    ensures forall j :: 0 <= j < |inbox| ==> inbox[j] == payload[j]
  {
    SliceEnds(w, dt, script, w1, l1, t);
    NotifyPends(w1, 0, k, payload);
    MoveConserves(w1, Post(k, payload), w2, l2);
    OnlyWaiter(w2, dt3, script3, w3, l3, k, t);
    inbox := InboxByIndex(w2, dt3, script3, w3, l3, k, 0);
  }

  lemma KeptWaiterAsks(records: seq<Record>, visits: seq<Visit>, asked: seq<(nat, Key)>, k: Key, t: nat)
    requires KeptIn(visits, t) && t < |records| && WaitsFor(records[t], k)
    requires Pick(asked, AskedFor(k)) == Waiters(records, visits, k)
    ensures (t, k) in asked
  {
    var i :| 0 <= i < |visits| && visits[i] == Visit(t, visits[i].spawned, true);
    var m := IsPicked(visits, WaitingIn(records, k), i);
    Picked(asked, AskedFor(k), m);
  }

  lemma NothingDelivered(delivered: seq<Scheduling.Delivery>, k: Key)
    requires Pick(delivered, DeliveredOn(k)) == []
    ensures forall d :: d in delivered ==> d.key != k
  {
    forall d | d in delivered ensures d.key != k {
      var q :| 0 <= q < |delivered| && delivered[q] == d;
      if d.key == k {
        var p := IsPicked(delivered, DeliveredOn(k), q);
      }
    }
  }

  /** Nothing else wakes it: as long as there is no event for its key, it goes on waiting. */
  lemma WaitsForItsKey(w: World, dt: real, script: Script, w1: World, l: Log, k: Key, t: nat)
    requires Conserved(w) && Tick(w, dt, script) == Success((w1, l)) && KeptIn(l.visits, t)
    requires t in w.queue && t < |w.records| && WaitsFor(w.records[t], k)
    requires Pending(w.events, k) == [] && Posted(l, k) == []
    ensures t < |w1.records| && w1.records[t] == w.records[t]
  {
    TickBalances(w, dt, script, w1, l);
    TickMatches(w, dt, script, w1, l, k);
    assert Pending(w.events, k) + Posted(l, k) == Payloads(Delivered(l, k)) + Pending(w1.events, k);
    NothingDelivered(l.delivered, k) by {
      assert |Payloads(Delivered(l, k)) + Pending(w1.events, k)| == 0;
    }
    KeptWaiterAsks(w.records, l.visits, l.asked, k, t);
    assert AskerSettled(w, w1, l, t, k) by {
      assert Settled(w, w1, l);
    }
  }
}
