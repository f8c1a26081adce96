/** Whole runs: the host starts threads and posts events, and lets time pass. */
module Episodes {
  import opened Wrappers
  import opened Scheduling
  import opened Conservation
  import opened Delivery

  /** `vm_init`. */
  function Initial(maxThreads: nat): World {
    World(seq(maxThreads, i => FRESH), [], [], seq(maxThreads, i => i))
  }

  /** What the host does: `gsc_call`, `gsc_object_notify`, `gsc_update`. */
  datatype Move = Call | Post(key: Key, payload: seq<int>) | Pass(dt: real, script: Script)

  function Make(w: World, m: Move): Scheduling.Outcome {
    match m
    case Call => Perform(w, 0, Spawn)
    case Post(key, payload) => Perform(w, 0, Notify(key, payload))
    case Pass(dt, script) => Tick(w, dt, script)
  }

  function Episode(w: World, moves: seq<Move>): Scheduling.Outcome
    decreases |moves|
  {
    if moves == [] then Success((w, NOTHING))
    else
      var n := |moves| - 1;
      var (w1, l1) :- Episode(w, moves[..n]);
      var (w2, l2) :- Make(w1, moves[n]);
      Success((w2, Both(l1, l2)))
  }

  lemma {:induction false} OneOfEach(n: nat, s: seq<nat>)
    requires |s| == n && forall i :: 0 <= i < n ==> s[i] == i
    ensures forall t: nat :: multiset(s)[t] == if t < n then 1 else 0
    decreases n
  {
    if n > 0 {
      var m := n - 1;
      OneOfEach(m, s[..m]);
      assert s == s[..m] + [m];
    }
  }

  lemma InitiallyConserved(maxThreads: nat)
    requires maxThreads > 0
    ensures Conserved(Initial(maxThreads))
  {
    var w := Initial(maxThreads);
    OneOfEach(maxThreads, w.free);
    forall t: nat ensures Places(w, [])[t] == if t < maxThreads then 1 else 0 {
      assert multiset(w.queue)[t] == 0;
    }
  }

  lemma MoveConserves(w: World, m: Move, w1: World, l: Log)
    requires Conserved(w) && Make(w, m) == Success((w1, l))
    ensures Conserved(w1) && |w1.records| == |w.records|
  {
    match m
    case Call =>
      assert w.free == l.spawned + w1.free;
      OwnedMoves(w, [], w1, [], l.spawned);
    case Post(key, payload) => EventsDoNotMatter(w, w1.events);
    case Pass(dt, script) => TickOrder(w, dt, script, w1, l);
  }

  lemma MoveBalances(w: World, m: Move, w1: World, l: Log)
    requires Conserved(w) && Make(w, m) == Success((w1, l))
    ensures Balanced(w, w1, l)
  {
    match m
    case Call => ActionBalances(w, 0, Spawn, w1, l);
    case Post(key, payload) => ActionBalances(w, 0, Notify(key, payload), w1, l);
    case Pass(dt, script) => TickBalances(w, dt, script, w1, l);
  }

  /** Conservation of threads: at every point of every run, each record is queued or free, once. */
  lemma {:induction false} EpisodeConserves(w: World, moves: seq<Move>, w1: World, l: Log)
    requires Conserved(w) && Episode(w, moves) == Success((w1, l))
    ensures Conserved(w1) && |w1.records| == |w.records|
    decreases |moves|
  {
    if moves != [] {
      var n := |moves| - 1;
      var (w0, l0) := Episode(w, moves[..n]).value;
      var (w2, l2) := Make(w0, moves[n]).value;
      EpisodeConserves(w, moves[..n], w0, l0);
      MoveConserves(w0, moves[n], w2, l2);
    }
  }

  lemma {:induction false} EpisodeBalances(w: World, moves: seq<Move>, w1: World, l: Log)
    requires Conserved(w) && Episode(w, moves) == Success((w1, l))
    ensures Balanced(w, w1, l)
    decreases |moves|
  {
    if moves == [] {
      IdleBalances(w, w1, l);
    } else {
      var n := |moves| - 1;
      var (w0, l0) := Episode(w, moves[..n]).value;
      var (w2, l2) := Make(w0, moves[n]).value;
      EpisodeBalances(w, moves[..n], w0, l0);
      EpisodeConserves(w, moves[..n], w0, l0);
      MoveBalances(w0, moves[n], w2, l2);
      BalancedTwice(w, w0, w2, l0, l2);
    }
  }

  /**
   * Every run of a new VM: the threads in use and the free ones are all there are, and of the events
   * for a key, in the order in which they were posted, the first have been delivered, each once, and
   * the others are pending.
   */
  lemma EveryRun(maxThreads: nat, moves: seq<Move>, w: World, l: Log, k: Key)
    requires maxThreads > 0 && Episode(Initial(maxThreads), moves) == Success((w, l))
    ensures |w.queue| + |w.free| == maxThreads && w.free != []
    ensures forall t: nat :: t < maxThreads <==> t in w.queue || t in w.free
    ensures forall i, j :: 0 <= i < j < |w.queue| ==> w.queue[i] != w.queue[j]
    ensures Posted(l, k) == Payloads(Delivered(l, k)) + Pending(w.events, k)
  {
    var start := Initial(maxThreads);
    InitiallyConserved(maxThreads);
    EpisodeConserves(start, moves, w, l);
    ConservedIsPartition(w);
    EpisodeBalances(start, moves, w, l);
    assert Pending(start.events, k) + Posted(l, k) == Payloads(Delivered(l, k)) + Pending(w.events, k);
    assert Pending(start.events, k) == [];
  }
}
