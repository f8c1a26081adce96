/**
 * `vm_run_threads` as a function on values: a queue of threads, a list of events, and a pool of
 * thread records. What a running thread does before it waits or ends is given by its slice.
 */
module Scheduling {
  import opened Wrappers

  const MAX_EVENTS := 256
  const MAX_ENDON := 8
  const MAX_EVENT_ARGS := 16

  datatype Status = Inactive | Active | WaitingTime | WaitingFrame | WaitingEvent

  /** The name of an event and the object it is about. */
  datatype Key = Key(name: nat, target: nat)

  datatype Event = Event(key: Key, payload: seq<int>, active: bool)

  /**
   * What the scheduler knows of a thread. A thread that waits for an event has `wants` variables for
   * the arguments; `inbox` is what the last event put into them, from the first one on.
   */
  datatype Record = Record(status: Status, wait: real, key: Key, wants: nat, endon: seq<nat>, inbox: Option<seq<int>>)

  const FRESH := Record(Active, 0.0, Key(0, 0), 0, [], None)

  datatype SchedulerError = NoThreadsLeft | QueueFull | EventOverflow | TooManyEndons

  /** The free records are in the order in which the pool hands them out. */
  datatype World = World(records: seq<Record>, queue: seq<nat>, events: seq<Event>, free: seq<nat>)

  datatype Action = Spawn | Notify(key: Key, payload: seq<int>) | EndOn(name: nat)

  /** How a slice ends: the thread returns from its last function, or waits. */
  datatype End = Finish | WaitFor(seconds: real) | WaitFrame | WaitTill(key: Key, wants: nat)

  /** What an active thread does in one tick. */
  datatype Slice = Slice(actions: seq<Action>, end: End)

  /** The slices of one tick, by thread. */
  type Script = nat -> Slice

  /** One turn of the loop: whose it was, the threads it started, and whether the thread stays in the queue. */
  datatype Visit = Visit(thread: nat, spawned: seq<nat>, kept: bool)

  datatype Delivery = Delivery(thread: nat, key: Key, payload: seq<int>)

  /** What happened, in order. */
  datatype Log = Log(posted: seq<(Key, seq<int>)>, delivered: seq<Delivery>, asked: seq<(nat, Key)>,
                     spawned: seq<nat>, visits: seq<Visit>)

  const NOTHING := Log([], [], [], [], [])

  function Both(a: Log, b: Log): Log {
    Log(a.posted + b.posted, a.delivered + b.delivered, a.asked + b.asked, a.spawned + b.spawned,
        a.visits + b.visits)
  }

  type Outcome = Result<(World, Log), SchedulerError>

  /** One place of the ring stays empty. */
  predicate HasRoom(w: World) {
    |w.queue| + 1 < |w.records|
  }

  /** `add_thread`. */
  function Enqueue(w: World, t: nat): Result<World, SchedulerError> {
    if HasRoom(w) then Success(w.(queue := w.queue + [t])) else Failure(QueueFull)
  }

  // ---- a running thread ----

  function Front(s: seq<int>, n: nat): seq<int> {
    if |s| <= n then s else s[..n]
  }

  /** One thing that a running thread does. */
  function Perform(w: World, self: nat, a: Action): Outcome {
    match a
    case Spawn =>
      if w.free == [] || w.free[0] >= |w.records| then Failure(NoThreadsLeft)
      else
        var t := w.free[0];
        var w1 :- Enqueue(w.(records := w.records[t := FRESH], free := w.free[1..]), t);
        Success((w1, NOTHING.(spawned := [t])))
    case Notify(key, payload) =>
      if |w.events| >= MAX_EVENTS then Failure(EventOverflow)
      else
        var kept := Front(payload, MAX_EVENT_ARGS);
        Success((w.(events := w.events + [Event(key, kept, true)]), NOTHING.(posted := [(key, kept)])))
    case EndOn(name) =>
      if self >= |w.records| || |w.records[self].endon| >= MAX_ENDON then Failure(TooManyEndons)
      else
        var r := w.records[self];
        Success((w.(records := w.records[self := r.(endon := r.endon + [name])]), NOTHING))
  }

  function PerformAll(w: World, self: nat, actions: seq<Action>): Outcome
    decreases |actions|
  {
    if actions == [] then Success((w, NOTHING))
    else
      var n := |actions| - 1;
      var (w1, l1) :- PerformAll(w, self, actions[..n]);
      var (w2, l2) :- Perform(w1, self, actions[n]);
      Success((w2, Both(l1, l2)))
  }

  /** The state in which the slice leaves the thread. */
  function Ended(r: Record, end: End): Record {
    match end
    case Finish => r.(status := Inactive)
    case WaitFor(d) => r.(status := WaitingTime, wait := d)
    case WaitFrame => r.(status := WaitingFrame)
    case WaitTill(key, wants) =>
      r.(status := WaitingEvent, key := key, wants := if wants < MAX_EVENT_ARGS then wants else MAX_EVENT_ARGS)
  }

  function SetRecord(w: World, t: nat, r: Record): World {
    if t < |w.records| then w.(records := w.records[t := r]) else w
  }

  /** `run_thread`. */
  function RunSlice(w: World, t: nat, slice: Slice): Outcome {
    var (w1, l) :- PerformAll(w, t, slice.actions);
    if t < |w1.records| then Success((SetRecord(w1, t, Ended(w1.records[t], slice.end)), l)) else Success((w1, l))
  }

  // ---- events ----

  /** Does an active event end a thread with these names? */
  predicate IsEnded(events: seq<Event>, endon: seq<nat>) {
    exists i :: 0 <= i < |events| && events[i].active && events[i].key.name in endon
  }

  /** The first active event for a key; the number of events if there is none. */
  function FirstMatch(events: seq<Event>, key: Key): (i: nat)
    ensures i <= |events|
    ensures i < |events| ==> events[i].active && events[i].key == key
    ensures forall j :: 0 <= j < i ==> !(events[j].active && events[j].key == key)
  {
    if events == [] || (events[0].active && events[0].key == key) then 0 else 1 + FirstMatch(events[1..], key)
  }

  /** The check of a thread that waits for an event: take the first one, if there is one. */
  function Deliver(w: World, t: nat): (World, Log)
    requires t < |w.records|
  {
    var r := w.records[t];
    var i := FirstMatch(w.events, r.key);
    var asked := NOTHING.(asked := [(t, r.key)]);
    if i == |w.events| then (w, asked)
    else
      (w.(records := w.records[t := r.(status := Active, inbox := Some(Front(w.events[i].payload, r.wants)))],
          events := w.events[i := w.events[i].(active := false)]),
       asked.(delivered := [Delivery(t, r.key, w.events[i].payload)]))
  }

  /** The events that nobody has taken. */
  function Compact(events: seq<Event>): (r: seq<Event>)
    ensures |r| <= |events|
  {
    if events == [] then []
    else
      var n := |events| - 1;
      Compact(events[..n]) + if events[n].active then [events[n]] else []
  }

  // ---- one thread, one tick ----

  /** The `endon` check, and then what the state of the thread asks for. */
  function Process(w: World, t: nat, dt: real, slice: Slice): Outcome
    requires t < |w.records|
  {
    var r := w.records[t];
    var log := NOTHING.(visits := [Visit(t, [], true)]);
    var left := NOTHING.(visits := [Visit(t, [], false)]);
    if r.status != Inactive && IsEnded(w.events, r.endon) then
      Success((Release(SetRecord(w, t, r.(status := Inactive)), t), left))
    else
      match r.status
      case Inactive => Success((Release(w, t), left))
      case WaitingTime =>
        var r1 := if r.wait <= 0.0 then r.(status := Active) else r;
        var w1 :- Enqueue(SetRecord(w, t, r1.(wait := r1.wait - dt)), t);
        Success((w1, log))
      case WaitingFrame =>
        var w1 :- Enqueue(SetRecord(w, t, r.(status := Active)), t);
        Success((w1, log))
      case Active =>
        var (w1, l) :- RunSlice(w, t, slice);
        var w2 :- Enqueue(w1, t);
        Success((w2, l.(visits := [Visit(t, l.spawned, true)])))
      case WaitingEvent =>
        var (w1, l) := Deliver(w, t);
        var w2 :- Enqueue(w1, t);
        Success((w2, Both(log, l)))
  }

  /** The record goes back to the pool. */
  function Release(w: World, t: nat): World {
    w.(free := [t] + w.free)
  }

  /** One turn of the loop: take the thread at the front of the queue. */
  function Turn(w: World, dt: real, script: Script): Outcome {
    if w.queue == [] || w.queue[0] >= |w.records| then Success((w, NOTHING))
    else Process(w.(queue := w.queue[1..]), w.queue[0], dt, script(w.queue[0]))
  }

  /** The turn of whoever is at the front. */
  type Step = World -> Outcome

  function TurnOf(dt: real, script: Script): Step {
    (w: World) => Turn(w, dt, script)
  }

  function Turns(w: World, n: nat, step: Step): Outcome
    decreases n
  {
    if n == 0 then Success((w, NOTHING))
    else
      var (w1, l1) :- step(w);
      var (w2, l2) :- Turns(w1, n - 1, step);
      Success((w2, Both(l1, l2)))
  }

  /** `vm_run_threads`: as many turns as there are threads at the start, and then the events are compacted. */
  function Tick(w: World, dt: real, script: Script): Outcome {
    var (w1, l) :- Turns(w, |w.queue|, TurnOf(dt, script));
    Success((w1.(events := Compact(w1.events)), l))
  }
}
