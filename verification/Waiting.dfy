/** What becomes of a thread from tick to tick, and how long a timed wait lasts. */
module Waiting {
  import opened Wrappers
  import opened Scheduling
  import opened Conservation
  import opened Delivery

  // ---- one turn ----

  /** The names that a slice adds to those that end the thread. */
  function Names(actions: seq<Action>): seq<nat>
    decreases |actions|
  {
    if actions == [] then []
    else
      var n := |actions| - 1;
      Names(actions[..n]) + if actions[n].EndOn? then [actions[n].name] else []
  }

  /** A timed wait is checked before the time of the tick is taken off. */
  function Waited(r: Record, dt: real): Record {
    r.(status := if r.wait <= 0.0 then Active else WaitingTime, wait := r.wait - dt)
  }

  /** What a thread that stays, and does not wait for an event, has become after its turn. */
  function After(r: Record, dt: real, slice: Slice): Record
    requires !r.status.Inactive? && !r.status.WaitingEvent?
  {
    match r.status
    case Active => Ended(r.(endon := r.endon + Names(slice.actions)), slice.end)
    case WaitingTime => Waited(r, dt)
    case WaitingFrame => r.(status := Active)
  }

  ghost predicate Moves(w: World, t: nat, w1: World, v: Visit, dt: real, script: Script) {
    && t == v.thread < |w.records| == |w1.records|
    && var r := w.records[t];
    && (r.status == Inactive ==> !v.kept)
    && (r.status != Inactive && r.endon == [] ==> v.kept)
    && (v.kept && r.status != WaitingEvent ==> r.status != Inactive && w1.records[t] == After(r, dt, script(t)))
  }

  lemma {:induction false} NamesRecorded(w: World, t: nat, actions: seq<Action>, w1: World, l: Log)
    requires t < |w.records| && t !in w.free && (forall i, j :: 0 <= i < j < |w.free| ==> w.free[i] != w.free[j])
    requires PerformAll(w, t, actions) == Success((w1, l))
    ensures |w1.records| == |w.records| && w1.records[t] == w.records[t].(endon := w.records[t].endon + Names(actions))
    decreases |actions|
  {
    if actions != [] {
      var n := |actions| - 1;
      var (w0, l0) := PerformAll(w, t, actions[..n]).value;
      NamesRecorded(w, t, actions[..n], w0, l0);
      SpawnsAreTaken(w, t, actions[..n], w0, l0);
      assert w.free == l0.spawned + w0.free;
      if w0.free != [] {
        assert w.free[|l0.spawned|] == w0.free[0];
      }
      NameRecorded(w0, t, actions[n], Perform(w0, t, actions[n]).value.0);
      assert w.records[t].endon + Names(actions)
          == w.records[t].endon + Names(actions[..n]) + if actions[n].EndOn? then [actions[n].name] else [];
    }
  }

  lemma NameRecorded(w: World, t: nat, a: Action, w1: World)
    requires t < |w.records| && (w.free != [] ==> w.free[0] != t)
    requires Perform(w, t, a).Success? && Perform(w, t, a).value.0 == w1
    ensures |w1.records| == |w.records|
    ensures var r := w.records[t]; w1.records[t] == r.(endon := r.endon + if a.EndOn? then [a.name] else [])
  {
  }

  lemma TurnMoves(w: World, dt: real, script: Script, w1: World, l: Log)
    requires Conserved(w) && w.queue != [] && Turn(w, dt, script) == Success((w1, l))
    ensures |l.visits| == 1 && Moves(w, w.queue[0], w1, l.visits[0], dt, script)
  {
    var t := w.queue[0];
    OwnedApart(w, [], t);
    var r := w.records[t];
    assert r.endon == [] ==> !IsEnded(w.events, r.endon);
    if r.status == Active && !IsEnded(w.events, r.endon) {
      var w0 := w.(queue := w.queue[1..]);
      InHand(w, w0, t);
      var (w2, l2) := PerformAll(w0, t, script(t).actions).value;
      NamesRecorded(w0, t, script(t).actions, w2, l2);
    }
  }

  // ---- one tick ----

  ghost predicate Mover(step: Step, dt: real, script: Script) {
    forall w: World {:trigger step(w)} :: Conserved(w) && w.queue != [] && step(w).Success? ==>
      var (w1, l) := step(w).value;
      |l.visits| == 1 && Moves(w, w.queue[0], w1, l.visits[0], dt, script)
  }

  lemma TurnIsMover(dt: real, script: Script)
    ensures Mover(TurnOf(dt, script), dt, script)
  {
    var step := TurnOf(dt, script);
    forall w: World | Conserved(w) && w.queue != [] && step(w).Success?
      ensures var (w1, l) := step(w).value; |l.visits| == 1 && Moves(w, w.queue[0], w1, l.visits[0], dt, script)
    {
      TurnMoves(w, dt, script, step(w).value.0, step(w).value.1);
    }
  }

  ghost predicate AllMove(w: World, w1: World, visits: seq<Visit>, dt: real, script: Script) {
    forall i :: 0 <= i < |visits| ==> Moves(w, visits[i].thread, w1, visits[i], dt, script)
  }

  lemma MoveTogether(w: World, n: nat, wa: World, la: Log, wb: World, lb: Log, dt: real, script: Script)
    requires Conserved(w) && 0 < n <= |w.queue| && TurnDoes(w, w.queue[0], wa, la)
    requires Moves(w, w.queue[0], wa, la.visits[0], dt, script)
    requires n - 1 <= |wa.queue| && TurnsDo(wa, n - 1, wb, lb) && AllMove(wa, wb, lb.visits, dt, script)
    ensures AllMove(w, wb, la.visits + lb.visits, dt, script)
  {
    LeftAlone(w, n, wa, la, wb, lb);
    var visits := la.visits + lb.visits;
    forall i | 0 <= i < |visits| ensures Moves(w, visits[i].thread, wb, visits[i], dt, script) {
      if i > 0 {
        var j := i - 1;
        assert visits[i] == lb.visits[j] && Threads(lb.visits)[j] == lb.visits[j].thread;
        assert Moves(wa, lb.visits[j].thread, wb, lb.visits[j], dt, script);
      }
    }
  }

  lemma TurnsMove(w: World, n: nat, step: Step, w1: World, l: Log, dt: real, script: Script)
    requires Proper(step) && Mover(step, dt, script) && Conserved(w) && n <= |w.queue|
    requires Turns(w, n, step) == Success((w1, l))
    ensures AllMove(w, w1, l.visits, dt, script)
  {
    var claim := (v: World, u: World, r: Log) => AllMove(v, u, r.visits, dt, script);
    forall v: World, wa: World, la: Log, m: nat, wb: World, lb: Log
      {:trigger Together(step, v, wa, la, m, wb, lb)}
      | Together(step, v, wa, la, m, wb, lb) && claim(wa, wb, lb)
      ensures claim(v, wb, Both(la, lb))
    {
      Parts(step, v, wa, la, m, wb, lb);
      MoveTogether(v, m, wa, la, wb, lb, dt, script);
    }
    TurnsInduct(w, n, step, w1, l, claim);
  }

  /** Does the thread keep its place through the tick, that is, is it not freed? */
  predicate KeptIn(visits: seq<Visit>, t: nat) {
    exists i :: 0 <= i < |visits| && visits[i] == Visit(t, visits[i].spawned, true)
  }

  /**
   * What a tick makes of a thread. One that has returned from its last function is freed, one that
   * nothing can end stays, and one that stays has moved on by exactly one turn.
   */
  lemma TickMoves(w: World, dt: real, script: Script, w1: World, l: Log, t: nat)
    requires Conserved(w) && Tick(w, dt, script) == Success((w1, l)) && t in w.queue
    ensures t < |w.records| == |w1.records|
    ensures w.records[t].status == Inactive ==> !KeptIn(l.visits, t)
    ensures w.records[t].status != Inactive && w.records[t].endon == [] ==> KeptIn(l.visits, t)
    ensures KeptIn(l.visits, t) ==> t in w1.queue
    ensures KeptIn(l.visits, t) && w.records[t].status != WaitingEvent ==>
              w.records[t].status != Inactive && w1.records[t] == After(w.records[t], dt, script(t))
  {
    TickOrder(w, dt, script, w1, l);
    var (w2, l2) := Turns(w, |w.queue|, TurnOf(dt, script)).value;
    TurnIsProper(dt, script);
    TurnIsMover(dt, script);
    TurnsMove(w, |w.queue|, TurnOf(dt, script), w2, l2, dt, script);
    assert w1.records == w2.records;
    OwnedApart(w, [], t);
    var i :| 0 <= i < |w.queue| && w.queue[i] == t;
    assert l.visits[i].thread == Threads(l.visits)[i] == t;
    assert Moves(w, l.visits[i].thread, w1, l.visits[i], dt, script);
    if l.visits[i].kept {
      assert l.visits[i] == Visit(t, l.visits[i].spawned, true);
      StaysBehind(l.visits, i);
    }
    if KeptIn(l.visits, t) {
      var j :| 0 <= j < |l.visits| && l.visits[j] == Visit(t, l.visits[j].spawned, true);
      assert w.queue[j] == Threads(l.visits)[j] == t;
      ConservedIsPartition(w);
      assert i == j;
    }
  }

  lemma {:induction false} StaysBehind(visits: seq<Visit>, i: nat)
    requires i < |visits| && visits[i].kept
    ensures visits[i].thread in Stays(visits)
    decreases i
  {
    if i == 0 {
      assert Stay(visits[0])[|visits[0].spawned|] == visits[0].thread;
    } else {
      StaysBehind(visits[1..], i - 1);
    }
  }

  // ---- ticks ----

  datatype Frame = Frame(dt: real, script: Script)

  function Ticks(w: World, frames: seq<Frame>): Scheduling.Outcome
    decreases |frames|
  {
    if frames == [] then Success((w, NOTHING))
    else
      var (w1, l1) :- Tick(w, frames[0].dt, frames[0].script);
      var (w2, l2) :- Ticks(w1, frames[1..]);
      Success((w2, Both(l1, l2)))
  }

  /** All the ticks succeed, and the thread is not freed in any of them. */
  ghost predicate Survives(w: World, t: nat, frames: seq<Frame>)
    decreases |frames|
  {
    frames != [] ==>
      var tick := Tick(w, frames[0].dt, frames[0].script);
      tick.Success? && KeptIn(tick.value.1.visits, t) && Survives(tick.value.0, t, frames[1..])
  }

  /** The time that has gone by. */
  function Elapsed(frames: seq<Frame>): real {
    if frames == [] then 0.0 else frames[0].dt + Elapsed(frames[1..])
  }

  /** Before none of the ticks the time was up. */
  ghost predicate NotUpBefore(frames: seq<Frame>, d: real) {
    forall j :: 0 <= j < |frames| ==> Elapsed(frames[..j]) < d
  }

  /** A thread that nothing can end is not freed while it waits. */
  lemma {:induction false} UnendedSurvives(w: World, t: nat, d: real, frames: seq<Frame>)
    requires Conserved(w) && t in w.queue && t < |w.records|
    requires w.records[t].status == WaitingTime && w.records[t].wait == d && w.records[t].endon == []
    requires Ticks(w, frames).Success? && NotUpBefore(frames, d)
    ensures Survives(w, t, frames)
    decreases |frames|
  {
    if frames != [] {
      var f, rest := frames[0], frames[1..];
      var (wa, la) := Tick(w, f.dt, f.script).value;
      TickOrder(w, f.dt, f.script, wa, la);
      TickMoves(w, f.dt, f.script, wa, la, t);
      assert Elapsed(frames[..0]) < d;
      LaterNotUp(frames, d);
      UnendedSurvives(wa, t, d - f.dt, rest);
    }
  }

  lemma LaterNotUp(frames: seq<Frame>, d: real)
    requires frames != [] && NotUpBefore(frames, d)
    ensures NotUpBefore(frames[1..], d - frames[0].dt)
  {
    var rest := frames[1..];
    forall j | 0 <= j < |rest| ensures Elapsed(rest[..j]) < d - frames[0].dt {
      var m := j + 1;
      assert frames[..m][1..] == rest[..j];
      assert Elapsed(frames[..m]) < d;
    }
  }

  /** Nothing can end the thread, or nothing does. */
  ghost predicate NotEnded(w: World, t: nat, frames: seq<Frame>) {
    (t < |w.records| && w.records[t].endon == []) || Survives(w, t, frames)
  }

  /** A wait for `d` goes on as long as less than `d` has gone by before every tick. */
  lemma {:induction false} StillWaiting(w: World, t: nat, d: real, frames: seq<Frame>, w1: World, l: Log)
    requires Conserved(w) && t in w.queue && t < |w.records|
    requires w.records[t].status == WaitingTime && w.records[t].wait == d
    requires Ticks(w, frames) == Success((w1, l)) && NotEnded(w, t, frames) && NotUpBefore(frames, d)
    ensures Conserved(w1) && t in w1.queue && t < |w1.records|
    ensures w1.records[t] == w.records[t].(wait := d - Elapsed(frames))
    decreases |frames|
  {
    if w.records[t].endon == [] {
      UnendedSurvives(w, t, d, frames);
    }
    if frames != [] {
      var f, rest := frames[0], frames[1..];
      var (wa, la) := Tick(w, f.dt, f.script).value;
      var (wb, lb) := Ticks(wa, rest).value;
      TickOrder(w, f.dt, f.script, wa, la);
      TickMoves(w, f.dt, f.script, wa, la, t);
      assert Elapsed(frames[..0]) < d;
      LaterNotUp(frames, d);
      StillWaiting(wa, t, d - f.dt, rest, wb, lb);
    }
  }

  /** The first tick before which `d` has gone by makes the thread active, so that it runs in the one after that. */
  lemma WakesWhenDue(w: World, t: nat, d: real, frames: seq<Frame>, w1: World, l: Log, last: Frame, w2: World, l2: Log)
    requires Conserved(w) && t in w.queue && t < |w.records|
    requires w.records[t].status == WaitingTime && w.records[t].wait == d
    requires Ticks(w, frames) == Success((w1, l)) && NotEnded(w, t, frames) && NotUpBefore(frames, d)
    requires Elapsed(frames) >= d
    requires Tick(w1, last.dt, last.script) == Success((w2, l2)) && (w.records[t].endon == [] || KeptIn(l2.visits, t))
    ensures Conserved(w2) && t in w2.queue && t < |w2.records| && w2.records[t].status == Active
  {
    StillWaiting(w, t, d, frames, w1, l);
    TickOrder(w1, last.dt, last.script, w2, l2);
    TickMoves(w1, last.dt, last.script, w2, l2, t);
  }

  lemma {:induction false} ElapsedEvenly(frames: seq<Frame>, dt: real)
    requires forall j :: 0 <= j < |frames| ==> frames[j].dt == dt
    ensures Elapsed(frames) == |frames| as real * dt
    decreases |frames|
  {
    if frames != [] {
      ElapsedEvenly(frames[1..], dt);
    }
  }

  /** `n` is `d / dt` rounded up, or 0 for a wait that is over at once. */
  predicate RoundedUp(d: real, dt: real, n: nat) {
    d <= n as real * dt && (n > 0 ==> (n - 1) as real * dt < d)
  }

  /** With ticks of the same length, a wait for `d` goes on through as many ticks as `d` needs, rounded up. */
  lemma WaitsThroughEvenTicks(w: World, t: nat, d: real, dt: real, n: nat, frames: seq<Frame>, w1: World, l: Log)
    requires Conserved(w) && t in w.queue && t < |w.records|
    requires w.records[t].status == WaitingTime && w.records[t].wait == d
    requires dt > 0.0 && RoundedUp(d, dt, n)
    requires |frames| <= n && forall j :: 0 <= j < |frames| ==> frames[j].dt == dt
    requires Ticks(w, frames) == Success((w1, l)) && NotEnded(w, t, frames)
    ensures t < |w1.records| && w1.records[t].status == WaitingTime
  {
    NotUpYet(frames, n, d, dt);
    StillWaiting(w, t, d, frames, w1, l);
  }

  /** And one tick later the thread is active. */
  lemma WakesAfterEvenTicks(w: World, t: nat, d: real, dt: real, n: nat, frames: seq<Frame>, last: Frame,
                             all: seq<Frame>, w1: World)
    requires Conserved(w) && t in w.queue && t < |w.records|
    requires w.records[t].status == WaitingTime && w.records[t].wait == d
    requires dt > 0.0 && RoundedUp(d, dt, n)
    requires |frames| == n && (forall j :: 0 <= j < |frames| ==> frames[j].dt == dt) && all == frames + [last]
    requires Ticks(w, all).Success? && Ticks(w, all).value.0 == w1 && NotEnded(w, t, all)
    ensures t < |w1.records| && w1.records[t].status == Active
  {
    NotUpYet(frames, n, d, dt);
    UpByThen(frames, n, d, dt);
    WakesAtTheEnd(w, t, d, frames, last, all, w1);
  }

  lemma UpByThen(frames: seq<Frame>, n: nat, d: real, dt: real)
    requires |frames| == n && d <= n as real * dt && forall j :: 0 <= j < |frames| ==> frames[j].dt == dt
    ensures Elapsed(frames) >= d
  {
    ElapsedEvenly(frames, dt);
  }

  lemma WakesAtTheEnd(w: World, t: nat, d: real, frames: seq<Frame>, last: Frame, all: seq<Frame>, w1: World)
    requires Conserved(w) && t in w.queue && t < |w.records|
    requires w.records[t].status == WaitingTime && w.records[t].wait == d
    requires NotUpBefore(frames, d) && Elapsed(frames) >= d && all == frames + [last]
    requires Ticks(w, all).Success? && Ticks(w, all).value.0 == w1 && NotEnded(w, t, all)
    ensures t < |w1.records| && w1.records[t].status == Active
  {
    TicksSplit(w, t, frames, [last], all);
    OneMoreTick(w, t, d, frames, last);
  }

  lemma OneMoreTick(w: World, t: nat, d: real, frames: seq<Frame>, f: Frame)
    requires Conserved(w) && t in w.queue && t < |w.records|
    requires w.records[t].status == WaitingTime && w.records[t].wait == d
    requires Ticks(w, frames).Success? && NotEnded(w, t, frames) && NotUpBefore(frames, d) && Elapsed(frames) >= d
    requires var w1 := Ticks(w, frames).value.0; Ticks(w1, [f]).Success? && (w.records[t].endon == [] || Survives(w1, t, [f]))
    ensures var w2 := Ticks(Ticks(w, frames).value.0, [f]).value.0; t < |w2.records| && w2.records[t].status == Active
  {
    var (w1, l1) := Ticks(w, frames).value;
    OneTick(w1, t, f);
    var (w2, l2) := Tick(w1, f.dt, f.script).value;
    WakesWhenDue(w, t, d, frames, w1, l1, f, w2, l2);
  }

  lemma NotUpYet(frames: seq<Frame>, n: nat, d: real, dt: real)
    requires dt > 0.0 && |frames| <= n && (n > 0 ==> (n - 1) as real * dt < d)
    requires forall j :: 0 <= j < |frames| ==> frames[j].dt == dt
    ensures NotUpBefore(frames, d)
  {
    forall j | 0 <= j < |frames| ensures Elapsed(frames[..j]) < d {
      ElapsedEvenly(frames[..j], dt);
      NoMore(j, n - 1, dt);
    }
  }

  lemma NoMore(a: nat, b: nat, dt: real)
    requires a <= b && dt > 0.0
    ensures a as real * dt <= b as real * dt
  {
  }

  lemma OneTick(w: World, t: nat, f: Frame)
    requires Ticks(w, [f]).Success?
    ensures var tick := Tick(w, f.dt, f.script);
            && tick.Success? && tick.value.0 == Ticks(w, [f]).value.0
            && (Survives(w, t, [f]) ==> KeptIn(tick.value.1.visits, t))
  {
    assert [f][1..] == [];
    var (w1, l1) := Tick(w, f.dt, f.script).value;
    assert Ticks(w1, [f][1..]) == Success((w1, NOTHING));
  }

  lemma {:induction false} TicksSplit(w: World, t: nat, a: seq<Frame>, b: seq<Frame>, all: seq<Frame>)
    requires all == a + b && Ticks(w, all).Success?
    ensures Ticks(w, a).Success? && Ticks(Ticks(w, a).value.0, b).Success?
    ensures Ticks(w, all).value.0 == Ticks(Ticks(w, a).value.0, b).value.0
    ensures Survives(w, t, all) ==> Survives(w, t, a) && Survives(Ticks(w, a).value.0, t, b)
    decreases |a|
  {
    if a == [] {
      assert all == b;
    } else {
      assert all[0] == a[0] && all[1..] == a[1..] + b;
      TicksSplit(Tick(w, a[0].dt, a[0].script).value.0, t, a[1..], b, all[1..]);
    }
  }
}
