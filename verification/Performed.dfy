/**
 * What scripts and the host do is what happens: the events and the new threads of a tick, and of a whole run,
 * are those of the actions of the threads that ran, in the order in which they ran. The log is compared with
 * the actions themselves.
 */
module Performed {
  import opened Wrappers
  import opened Scheduling
  import opened Conservation
  import opened Delivery
  import opened Episodes

  /** What an event carries of the values that are passed to `notify`. */
  function Carried(payload: seq<int>): (r: seq<int>)
    ensures |r| == if |payload| < 16 then |payload| else 16
    ensures forall i :: 0 <= i < |r| ==> r[i] == payload[i]
  {
    if |payload| < 16 then payload else payload[..16]
  }

  function NotifyOf(k: Key): Action -> Option<seq<int>> {
    (a: Action) => if a.Notify? && a.key == k then Some(Carried(a.payload)) else None
  }

  /** What the actions notify for a key, in order. */
  function Notified(actions: seq<Action>, k: Key): seq<seq<int>> {
    Pick(actions, NotifyOf(k))
  }

  function SpawnOf(): Action -> Option<()> {
    (a: Action) => if a.Spawn? then Some(()) else None
  }

  /** How many threads the actions start. */
  function Spawns(actions: seq<Action>): nat {
    |Pick(actions, SpawnOf())|
  }

  // ---- one action ----

  lemma FirstValues(payload: seq<int>)
    ensures Front(payload, MAX_EVENT_ARGS) == Carried(payload)
  {
    if |payload| == 16 {
      assert payload[..16] == payload;
    }
  }

  /** An event for exactly the key that was given, behind all that are pending for it, and nothing else. */
  lemma NotifyPends(w: World, self: nat, k: Key, payload: seq<int>)
    ensures Perform(w, self, Notify(k, payload)).Success? <==> |w.events| < 256
    ensures Perform(w, self, Notify(k, payload)).Success? ==>
              var w1 := Perform(w, self, Notify(k, payload)).value.0;
              && Pending(w1.events, k) == Pending(w.events, k) + [Carried(payload)]
              && (forall k1 :: k1 != k ==> Pending(w1.events, k1) == Pending(w.events, k1))
              && w1.records == w.records && w1.queue == w.queue && w1.free == w.free
  {
    if |w.events| < 256 {
      var w1 := Perform(w, self, Notify(k, payload)).value.0;
      var e := Event(k, Carried(payload), true);
      FirstValues(payload);
      assert w1.events == w.events + [e];
      forall k1 ensures Pending(w1.events, k1) == Pending(w.events, k1) + if k1 == k then [Carried(payload)] else [] {
        PickJoins(w.events, [e], PendingOn(k1));
        PickOne(e, PendingOn(k1));
      }
    }
  }

  /** The log of what happened has the events and the new threads of these actions. */
  ghost predicate Tells(l: Log, actions: seq<Action>) {
    && (forall k {:trigger Posted(l, k)} :: Posted(l, k) == Notified(actions, k))
    && |l.spawned| == Spawns(actions)
  }

  lemma TellsTwice(la: Log, a: seq<Action>, lb: Log, b: seq<Action>)
    requires Tells(la, a) && Tells(lb, b)
    ensures Tells(Both(la, lb), a + b)
  {
    var l := Both(la, lb);
    forall k ensures Posted(l, k) == Notified(a + b, k) {
      PickJoins(la.posted, lb.posted, PostedTo(k));
      PickJoins(a, b, NotifyOf(k));
      assert Posted(la, k) == Notified(a, k) && Posted(lb, k) == Notified(b, k);
    }
    PickJoins(a, b, SpawnOf());
  }

  lemma TellsNothing(l: Log)
    requires l.posted == [] && l.spawned == []
    ensures Tells(l, [])
  {
    forall k ensures Posted(l, k) == Notified([], k) {
    }
  }

  lemma ActionTells(w: World, self: nat, a: Action, w1: World, l: Log)
    requires Perform(w, self, a) == Success((w1, l))
    ensures Tells(l, [a])
  {
    PickOne(a, SpawnOf());
    forall k ensures Posted(l, k) == Notified([a], k) {
      PickOne(a, NotifyOf(k));
      if a.Notify? {
        FirstValues(a.payload);
        PickOne((a.key, Carried(a.payload)), PostedTo(k));
      }
    }
  }

  lemma {:induction false} ActionsTell(w: World, self: nat, actions: seq<Action>, w1: World, l: Log)
    requires PerformAll(w, self, actions) == Success((w1, l))
    ensures Tells(l, actions)
    decreases |actions|
  {
    if actions == [] {
      TellsNothing(l);
    } else {
      var n := |actions| - 1;
      var (w0, l0) := PerformAll(w, self, actions[..n]).value;
      ActionsTell(w, self, actions[..n], w0, l0);
      var (w2, l2) := Perform(w0, self, actions[n]).value;
      ActionTells(w0, self, actions[n], w2, l2);
      TellsTwice(l0, actions[..n], l2, [actions[n]]);
      assert actions == actions[..n] + [actions[n]];
    }
  }

  // ---- one tick ----

  /** What a thread does in its turn: it runs if it is active and not ended. */
  function RanBy(records: seq<Record>, v: Visit, script: Script): seq<Action> {
    if v.kept && v.thread < |records| && records[v.thread].status == Active then script(v.thread).actions else []
  }

  /** What all threads do, in the order of their turns. */
  function Ran(records: seq<Record>, visits: seq<Visit>, script: Script): seq<Action> {
    if visits == [] then [] else RanBy(records, visits[0], script) + Ran(records, visits[1..], script)
  }

  lemma {:induction false} RanJoins(records: seq<Record>, a: seq<Visit>, b: seq<Visit>, script: Script)
    ensures Ran(records, a + b, script) == Ran(records, a, script) + Ran(records, b, script)
    decreases |a|
  {
    if a == [] {
      assert a + b == b;
    } else {
      var ab := a + b;
      assert ab[0] == a[0] && ab[1..] == a[1..] + b;
      RanJoins(records, a[1..], b, script);
      assert RanBy(records, a[0], script) + (Ran(records, a[1..], script) + Ran(records, b, script))
          == RanBy(records, a[0], script) + Ran(records, a[1..], script) + Ran(records, b, script);
    }
  }

  lemma {:induction false} RanSame(records: seq<Record>, others: seq<Record>, visits: seq<Visit>, script: Script)
    requires |records| == |others|
    requires forall x :: x in Threads(visits) && x < |records| ==> others[x] == records[x]
    ensures Ran(others, visits, script) == Ran(records, visits, script)
    decreases |visits|
  {
    if visits != [] {
      assert Threads(visits)[0] == visits[0].thread;
      assert Threads(visits)[1..] == Threads(visits[1..]);
      RanSame(records, others, visits[1..], script);
    }
  }

  lemma TurnTells(w: World, dt: real, script: Script, w1: World, l: Log)
    requires Conserved(w) && w.queue != [] && Turn(w, dt, script) == Success((w1, l))
    ensures |l.visits| == 1 && Tells(l, RanBy(w.records, l.visits[0], script))
  {
    var t := w.queue[0];
    OwnedApart(w, [], t);
    var r := w.records[t];
    if r.status == Active && !IsEnded(w.events, r.endon) {
      var (w2, l2) := PerformAll(w.(queue := w.queue[1..]), t, script(t).actions).value;
      ActionsTell(w.(queue := w.queue[1..]), t, script(t).actions, w2, l2);
      SameTale(l2, l, script(t).actions);
    } else {
      TellsNothing(l);
    }
  }

  lemma SameTale(a: Log, b: Log, actions: seq<Action>)
    requires Tells(a, actions) && b.posted == a.posted && b.spawned == a.spawned
    ensures Tells(b, actions)
  {
    forall k ensures Posted(b, k) == Notified(actions, k) {
      assert Posted(a, k) == Notified(actions, k);
    }
  }

  ghost predicate Teller(step: Step, script: Script) {
    forall w: World {:trigger step(w)} :: Conserved(w) && w.queue != [] && step(w).Success? ==>
      var l := step(w).value.1;
      |l.visits| == 1 && Tells(l, RanBy(w.records, l.visits[0], script))
  }

  lemma TurnIsTeller(dt: real, script: Script)
    ensures Teller(TurnOf(dt, script), script)
  {
    var step := TurnOf(dt, script);
    forall w: World | Conserved(w) && w.queue != [] && step(w).Success?
      ensures var l := step(w).value.1; |l.visits| == 1 && Tells(l, RanBy(w.records, l.visits[0], script))
    {
      TurnTells(w, dt, script, step(w).value.0, step(w).value.1);
    }
  }

  lemma TellTogether(w: World, n: nat, wa: World, la: Log, wb: World, lb: Log, script: Script)
    requires Conserved(w) && 0 < n <= |w.queue| && TurnDoes(w, w.queue[0], wa, la)
    requires Tells(la, RanBy(w.records, la.visits[0], script))
    requires n - 1 <= |wa.queue| && TurnsDo(wa, n - 1, wb, lb) && Tells(lb, Ran(wa.records, lb.visits, script))
    ensures Tells(Both(la, lb), Ran(w.records, la.visits + lb.visits, script))
  {
    LeftAlone(w, n, wa, la, wb, lb);
    RanSame(w.records, wa.records, lb.visits, script);
    RanJoins(w.records, la.visits, lb.visits, script);
    assert la.visits[1..] == [];
    assert Ran(w.records, la.visits, script) == RanBy(w.records, la.visits[0], script);
    TellsTwice(la, RanBy(w.records, la.visits[0], script), lb, Ran(wa.records, lb.visits, script));
  }

  lemma TurnsTell(w: World, n: nat, step: Step, w1: World, l: Log, script: Script)
    requires Proper(step) && Teller(step, script) && Conserved(w) && n <= |w.queue|
    requires Turns(w, n, step) == Success((w1, l))
    ensures Tells(l, Ran(w.records, l.visits, script))
  {
    var claim := (v: World, u: World, r: Log) => Tells(r, Ran(v.records, r.visits, script));
    TellsNothing(NOTHING);
    forall v: World, wa: World, la: Log, m: nat, wb: World, lb: Log
      {:trigger Together(step, v, wa, la, m, wb, lb)}
      | Together(step, v, wa, la, m, wb, lb) && claim(wa, wb, lb)
      ensures claim(v, wb, Both(la, lb))
    {
      Parts(step, v, wa, la, m, wb, lb);
      TellTogether(v, m, wa, la, wb, lb, script);
    }
    TurnsInduct(w, n, step, w1, l, claim);
  }

  /**
   * The events of a tick are those that the threads that ran have notified, for each key in the order in which
   * they ran, with the first 16 values each; and as many threads are started as these threads have started.
   */
  lemma TickTells(w: World, dt: real, script: Script, w1: World, l: Log, k: Key)
    requires Conserved(w) && Tick(w, dt, script) == Success((w1, l))
    ensures Posted(l, k) == Notified(Ran(w.records, l.visits, script), k)
    ensures |l.spawned| == Spawns(Ran(w.records, l.visits, script))
  {
    TurnIsProper(dt, script);
    TurnIsTeller(dt, script);
    var (w2, l2) := Turns(w, |w.queue|, TurnOf(dt, script)).value;
    TurnsTell(w, |w.queue|, TurnOf(dt, script), w2, l2, script);
    assert l == l2;
  }

  // ---- whole runs ----

  /** What the host does in one move, or the threads in a tick. */
  function Done(w: World, m: Move): seq<Action>
    requires Make(w, m).Success?
  {
    match m
    case Call => [Spawn]
    case Post(key, payload) => [Notify(key, payload)]
    case Pass(dt, script) => Ran(w.records, Make(w, m).value.1.visits, script)
  }

  /** What is done in the whole run, in order. */
  function DoneIn(w: World, moves: seq<Move>): seq<Action>
    requires Episode(w, moves).Success?
    decreases |moves|
  {
    if moves == [] then []
    else
      var n := |moves| - 1;
      DoneIn(w, moves[..n]) + Done(Episode(w, moves[..n]).value.0, moves[n])
  }

  lemma MoveTells(w: World, m: Move, w1: World, l: Log)
    requires Conserved(w) && Make(w, m) == Success((w1, l))
    ensures Tells(l, Done(w, m))
  {
    match m
    case Call => ActionTells(w, 0, Spawn, w1, l);
    case Post(key, payload) => ActionTells(w, 0, Notify(key, payload), w1, l);
    case Pass(dt, script) =>
      TickTells(w, dt, script, w1, l, Key(0, 0));
      forall k ensures Posted(l, k) == Notified(Done(w, m), k) {
        TickTells(w, dt, script, w1, l, k);
      }
  }

  lemma {:induction false} EpisodeTells(w: World, moves: seq<Move>, w1: World, l: Log)
    requires Conserved(w) && Episode(w, moves) == Success((w1, l))
    ensures Tells(l, DoneIn(w, moves))
    decreases |moves|
  {
    if moves == [] {
      TellsNothing(l);
    } else {
      var n := |moves| - 1;
      var (w0, l0) := Episode(w, moves[..n]).value;
      var (w2, l2) := Make(w0, moves[n]).value;
      EpisodeTells(w, moves[..n], w0, l0);
      EpisodeConserves(w, moves[..n], w0, l0);
      MoveTells(w0, moves[n], w2, l2);
      TellsTwice(l0, DoneIn(w, moves[..n]), l2, Done(w0, moves[n]));
    }
  }

  /**
   * Every run of a new VM: what scripts and host have notified for a key, in the order in which they did, has been
   * delivered, each event once and the oldest first, or is pending; and as many records have been handed out as
   * threads were started.
   */
  lemma EveryNotify(maxThreads: nat, moves: seq<Move>, w: World, l: Log, k: Key)
    requires maxThreads > 0 && Episode(Initial(maxThreads), moves) == Success((w, l))
    ensures Notified(DoneIn(Initial(maxThreads), moves), k) == Payloads(Delivered(l, k)) + Pending(w.events, k)
    ensures Spawns(DoneIn(Initial(maxThreads), moves)) == |l.spawned|
  {
    InitiallyConserved(maxThreads);
    EveryRun(maxThreads, moves, w, l, k);
    EpisodeTells(Initial(maxThreads), moves, w, l);
  }
}
