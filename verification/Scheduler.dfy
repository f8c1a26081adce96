/** The scheduler of vm.c: ring buffer, event array and thread pool, updated in place. */
module Schedulers {
  import opened Wrappers
  import opened Scheduling
  import opened Conservation
  import opened Episodes
  import opened FreeLists

  /** `(i + 1) % n` for an index of a ring. */
  function Next(i: nat, n: nat): (r: nat)
    requires i < n
    ensures r == (if i + 1 == n then 0 else i + 1)
  {
    (i + 1) % n
  }

  /** The `count` elements of a ring from `from` on. */
  function Ring(buffer: seq<nat>, from: nat, count: nat): (q: seq<nat>)
    requires from < |buffer| && count <= |buffer|
    ensures |q| == count
  {
    if from + count <= |buffer| then buffer[from..from + count]
    else buffer[from..] + buffer[..from + count - |buffer|]
  }

  /** The number of elements from `from` up to `to`. */
  function Count(from: nat, to: nat, n: nat): (r: nat)
    requires from < n && to < n
    ensures r < n
  {
    if to >= from then to - from else n - (from - to)
  }

  lemma RingPush(buffer: seq<nat>, from: nat, to: nat, t: nat, n: nat, next: nat, c: nat)
    requires n == |buffer| && from < n && to < n && next == Next(to, n) && next != from && c == Count(from, to, n)
    ensures Count(from, next, n) == c + 1 <= n
    ensures Ring(buffer[to := t], from, Count(from, next, n)) == Ring(buffer, from, c) + [t]
  {
  }

  lemma RingPop(buffer: seq<nat>, from: nat, to: nat, n: nat, next: nat, c: nat)
    requires n == |buffer| && from < n && to < n && from != to && next == Next(from, n) && c == Count(next, to, n)
    ensures Count(from, to, n) == c + 1 <= n
    ensures var q := Ring(buffer, from, Count(from, to, n)); q[0] == buffer[from] && q[1..] == Ring(buffer, next, c)
  {
  }

  class Scheduler {
    const maxThreads: nat
    const threadBuffer: array<nat>
    var readIdx: nat
    var writeIdx: nat
    const records: array<Record>
    const events: array<Event>
    var eventCount: nat
    const pool: ObjectPool

    /** The representation is sound. */
    ghost predicate Shaped()
      reads this, pool
    {
      && maxThreads > 0 && threadBuffer.Length == records.Length == maxThreads && events.Length == MAX_EVENTS
      && readIdx < maxThreads && writeIdx < maxThreads && eventCount <= MAX_EVENTS
      && pool.Valid() && pool.size == pool.capacity == maxThreads
    }

    ghost function Queue(): seq<nat>
      requires Shaped()
      reads this, pool, threadBuffer
    {
      Ring(threadBuffer[..], readIdx, Count(readIdx, writeIdx, maxThreads))
    }

    /** The value that the fields stand for. */
    ghost function View(): World
      requires Shaped()
      reads this, pool, threadBuffer, records, events
    {
      World(records[..], Queue(), events[..eventCount], pool.free)
    }

    ghost predicate Valid()
      reads this, pool, threadBuffer, records, events
    {
      Shaped() && Conserved(View())
    }

    /** `vm_init`. */
    constructor (maxThreads: nat)
      requires maxThreads > 0
      ensures Shaped() && fresh(pool) && fresh(threadBuffer) && fresh(records) && fresh(events)
      ensures this.maxThreads == maxThreads
      ensures View() == Initial(maxThreads)
    {
      this.maxThreads := maxThreads;
      threadBuffer := new nat[maxThreads];
      readIdx, writeIdx, eventCount := 0, 0, 0;
      records := new Record[maxThreads](i => FRESH);
      events := new Event[MAX_EVENTS](i => Event(Key(0, 0), [], false));
      pool := new ObjectPool(maxThreads, None);
    }

    /** `thread_count`. */
    method ThreadCount() returns (n: nat)
      requires Shaped()
      ensures n == |Queue()|
    {
      if writeIdx >= readIdx {
        return writeIdx - readIdx;
      }
      return maxThreads - (readIdx - writeIdx);
    }

    /** `add_thread`. */
    method AddThread(t: nat) returns (error: Option<SchedulerError>)
      requires Shaped()
      modifies this`writeIdx, threadBuffer
      ensures Shaped()
      ensures match Enqueue(old(View()), t)
              case Success(w) => error == None && View() == w
              case Failure(e) => error == Some(e) && View() == old(View())
    {
      if (writeIdx + 1) % maxThreads == readIdx {
        return Some(QueueFull);
      }
      RingPush(threadBuffer[..], readIdx, writeIdx, t, maxThreads, Next(writeIdx, maxThreads),
               Count(readIdx, writeIdx, maxThreads));
      ghost var was := threadBuffer[..];
      threadBuffer[writeIdx] := t;
      assert threadBuffer[..] == was[writeIdx := t];
      writeIdx := (writeIdx + 1) % maxThreads;
      return None;
    }

    /** `remove_thread`. */
    method RemoveThread() returns (t: Option<nat>)
      requires Shaped()
      modifies this`readIdx
      ensures Shaped()
      ensures if old(Queue()) == [] then t == None && View() == old(View())
              else t == Some(old(Queue())[0]) && View() == old(View()).(queue := old(Queue())[1..])
    {
      if readIdx == writeIdx {
        assert Queue() == [];
        return None;
      }
      ghost var next := Next(readIdx, maxThreads);
      RingPop(threadBuffer[..], readIdx, writeIdx, maxThreads, next, Count(next, writeIdx, maxThreads));
      t := Some(threadBuffer[readIdx]);
      readIdx := (readIdx + 1) % maxThreads;
    }

    // ---- a running thread ----

    /** `vm_notify_args`. */
    method NotifyArgs(key: Key, payload: seq<int>) returns (error: Option<SchedulerError>, ghost log: Log)
      requires Shaped()
      modifies this`eventCount, events
      ensures Shaped()
      ensures match Perform(old(View()), 0, Notify(key, payload))
              case Success((w, l)) => error == None && View() == w && log == l
              case Failure(e) => error == Some(e)
      ensures error == None <==> |old(View()).events| < 256
      ensures error == None ==>
                var n := if |payload| < 16 then |payload| else 16;
                View() == old(View()).(events := old(View()).events + [Event(key, payload[..n], true)])
    {
      log := NOTHING;
      if eventCount >= MAX_EVENTS {
        return Some(EventOverflow), log;
      }
      var args := payload;
      if |args| > MAX_EVENT_ARGS {
        args := args[..MAX_EVENT_ARGS];
      }
      assert args == payload[..if |payload| < 16 then |payload| else 16];
      ghost var was := events[..eventCount];
      events[eventCount] := Event(key, args, true);
      eventCount := eventCount + 1;
      assert events[..eventCount] == was + [Event(key, args, true)];
      log := NOTHING.(posted := [(key, args)]);
      return None, log;
    }

    /** The threaded call, and `vm_call_function_thread`: a record from the pool, set up and queued. */
    method StartThread() returns (error: Option<SchedulerError>, ghost log: Log)
      requires Shaped()
      modifies this`writeIdx, threadBuffer, records, pool
      ensures Shaped()
      ensures match Perform(old(View()), 0, Spawn)
              case Success((w, l)) => error == None && View() == w && log == l
              case Failure(e) => error == Some(e)
    {
      log := NOTHING;
      var block := pool.Allocate();
      if block == None {
        return Some(NoThreadsLeft), log;
      }
      var t := block.value;
      records[t] := FRESH;
      error := AddThread(t);
      log := NOTHING.(spawned := [t]);
    }

    /** The `endon` instruction. */
    method RecordEndOn(self: nat, name: nat) returns (error: Option<SchedulerError>)
      requires Shaped() && self < maxThreads
      modifies records
      ensures match Perform(old(View()), self, EndOn(name))
              case Success((w, l)) => error == None && View() == w && l == NOTHING
              case Failure(e) => error == Some(e)
    {
      var r := records[self];
      if |r.endon| >= MAX_ENDON {
        return Some(TooManyEndons);
      }
      records[self] := r.(endon := r.endon + [name]);
      return None;
    }

    method Execute(self: nat, a: Action) returns (error: Option<SchedulerError>, ghost log: Log)
      requires Shaped() && self < maxThreads
      modifies this`writeIdx, this`eventCount, threadBuffer, records, events, pool
      ensures Shaped()
      ensures match Perform(old(View()), self, a)
              case Success((w, l)) => error == None && View() == w && log == l
              case Failure(e) => error == Some(e)
    {
      match a
      case Spawn =>
        error, log := StartThread();
      case Notify(key, payload) =>
        error, log := NotifyArgs(key, payload);
      case EndOn(name) =>
        log := NOTHING;
        error := RecordEndOn(self, name);
    }

    method ExecuteAll(self: nat, actions: seq<Action>) returns (error: Option<SchedulerError>, ghost log: Log)
      requires Shaped() && self < maxThreads
      modifies this`writeIdx, this`eventCount, threadBuffer, records, events, pool
      ensures Shaped()
      ensures match PerformAll(old(View()), self, actions)
              case Success((w, l)) => error == None && View() == w && log == l
              case Failure(e) => error == Some(e)
    {
      log := NOTHING;
      error := None;
      assert actions[..0] == [];
      for i := 0 to |actions|
        invariant Shaped() && error == None
        invariant PerformAll(old(View()), self, actions[..i]) == Success((View(), log))
      {
        ghost var done, l := actions[..i + 1], log;
        assert done[..i] == actions[..i] && done[i] == actions[i];
        error, l := Execute(self, actions[i]);
        if error.Some? {
          PerformAllFails(old(View()), self, actions, i + 1, error.value);
          return;
        }
        log := Both(log, l);
      }
      assert actions[..|actions|] == actions;
    }

    /** `run_thread`: the thread goes on until its state is no longer active. */
    method RunThread(self: nat, slice: Slice) returns (error: Option<SchedulerError>, ghost log: Log)
      requires Shaped() && self < maxThreads
      modifies this`writeIdx, this`eventCount, threadBuffer, records, events, pool
      ensures Shaped()
      ensures match RunSlice(old(View()), self, slice)
              case Success((w, l)) => error == None && View() == w && log == l
              case Failure(e) => error == Some(e)
    {
      error, log := ExecuteAll(self, slice.actions);
      if error == None {
        records[self] := Ended(records[self], slice.end);
      }
    }

    // ---- one thread, one tick ----

    /** The loop over the events and the names that end the thread. */
    method CheckEndOn(t: nat)
      requires Shaped() && t < maxThreads
      modifies records
      ensures var w := old(View());
              var r := w.records[t];
              View() == if r.status != Inactive && IsEnded(w.events, r.endon) then SetRecord(w, t, r.(status := Inactive)) else w
    {
      var j := 0;
      while j < eventCount && records[t].status != Inactive
        invariant 0 <= j <= eventCount
        invariant records[..] == old(records[..]) ||
          (IsEnded(events[..eventCount], old(records[t]).endon)
          && records[..] == old(records[..])[t := old(records[t]).(status := Inactive)])
        invariant old(records[t]).status != Inactive && records[..] == old(records[..]) ==>
          forall i :: 0 <= i < j && events[i].active ==> events[i].key.name !in old(records[t]).endon
      {
        var ev := events[j];
        if ev.active {
          for k := 0 to |records[t].endon|
            invariant records[..] == old(records[..])
            invariant forall i :: 0 <= i < k ==> ev.key.name != records[t].endon[i]
          {
            if ev.key.name == records[t].endon[k] {
              assert events[..eventCount][j] == ev;
              records[t] := records[t].(status := Inactive);
              break;
            }
          }
        }
        j := j + 1;
      }
    }

    /** The loop of a thread that waits for an event: the first that is active and matches is taken. */
    method DeliverEvent(t: nat) returns (ghost log: Log)
      requires Shaped() && t < maxThreads
      modifies records, events
      ensures Deliver(old(View()), t) == (View(), log)
    {
      var r := records[t];
      log := NOTHING.(asked := [(t, r.key)]);
      for j := 0 to eventCount
        invariant forall i :: 0 <= i < j ==> !(events[i].active && events[i].key == r.key)
        invariant unchanged(records) && unchanged(events)
      {
        var ev := events[j];
        if ev.active && ev.key == r.key {
          ghost var list := events[..eventCount];
          assert list[j] == ev;
          assert FirstMatch(list, r.key) == j;
          var min := if |ev.payload| < r.wants then |ev.payload| else r.wants;
          records[t] := r.(status := Active, inbox := Some(ev.payload[..min]));
          assert ev.payload[..min] == Front(ev.payload, r.wants);
          events[j] := ev.(active := false);
          assert events[..eventCount] == list[j := ev.(active := false)];
          log := log.(delivered := [Delivery(t, r.key, ev.payload)]);
          return;
        }
      }
      assert FirstMatch(events[..eventCount], r.key) == eventCount;
    }

    /** The loop that closes the gaps among the events. */
    method CompactEvents()
      requires Shaped()
      modifies this`eventCount, events
      ensures Shaped()
      ensures View() == old(View()).(events := Compact(old(View()).events))
    {
      ghost var list := events[..eventCount];
      var write := 0;
      assert list[..0] == [];
      for j := 0 to eventCount
        invariant eventCount == old(eventCount) == |list| && 0 <= write <= j
        invariant events[..write] == Compact(list[..j])
        invariant forall i :: j <= i < eventCount ==> events[i] == list[i]
      {
        assert list[..j + 1][..j] == list[..j];
        if events[j].active {
          ghost var was := events[..write];
          events[write] := events[j];
          write := write + 1;
          assert events[..write] == was + [list[j]];
        }
      }
      assert list[..eventCount] == list;
      eventCount := write;
    }

    /** What the state of a thread that has not been ended asks for. */
    method RunState(t: nat, dt: real, slice: Slice) returns (error: Option<SchedulerError>, ghost log: Log)
      requires Shaped() && t < maxThreads && t !in pool.free
      requires var r := View().records[t]; r.status == Inactive || !IsEnded(View().events, r.endon)
      modifies this`writeIdx, this`eventCount, threadBuffer, records, events, pool
      ensures Shaped()
      ensures match Process(old(View()), t, dt, slice)
              case Success((w, l)) => error == None && View() == w && log == l
              case Failure(e) => error == Some(e)
    {
      log := NOTHING.(visits := [Visit(t, [], true)]);
      match records[t].status
      case Inactive =>
        pool.Deallocate(t);
        error := None;
        log := NOTHING.(visits := [Visit(t, [], false)]);
      case WaitingTime =>
        if records[t].wait <= 0.0 {
          records[t] := records[t].(status := Active);
        }
        records[t] := records[t].(wait := records[t].wait - dt);
        error := AddThread(t);
      case WaitingFrame =>
        records[t] := records[t].(status := Active);
        error := AddThread(t);
      case Active =>
        error, log := RunActive(t, dt, slice);
      case WaitingEvent =>
        error, log := RunWaiting(t, dt, slice);
    }

    method RunActive(t: nat, dt: real, slice: Slice) returns (error: Option<SchedulerError>, ghost log: Log)
      requires Shaped() && t < maxThreads
      requires var r := View().records[t]; r.status == Active && !IsEnded(View().events, r.endon)
      modifies this`writeIdx, this`eventCount, threadBuffer, records, events, pool
      ensures Shaped()
      ensures match Process(old(View()), t, dt, slice)
              case Success((w, l)) => error == None && View() == w && log == l
              case Failure(e) => error == Some(e)
    {
      error, log := RunThread(t, slice);
      log := log.(visits := [Visit(t, log.spawned, true)]);
      if error == None {
        error := AddThread(t);
      }
    }

    method RunWaiting(t: nat, dt: real, slice: Slice) returns (error: Option<SchedulerError>, ghost log: Log)
      requires Shaped() && t < maxThreads
      requires var r := View().records[t]; r.status == WaitingEvent && !IsEnded(View().events, r.endon)
      modifies this`writeIdx, threadBuffer, records, events
      ensures Shaped()
      ensures match Process(old(View()), t, dt, slice)
              case Success((w, l)) => error == None && View() == w && log == l
              case Failure(e) => error == Some(e)
    {
      log := DeliverEvent(t);
      error := AddThread(t);
      log := Both(NOTHING.(visits := [Visit(t, [], true)]), log);
    }

    /** The body of the loop over the threads, for one of them. */
    method RunOne(t: nat, dt: real, slice: Slice) returns (error: Option<SchedulerError>, ghost log: Log)
      requires Shaped() && t < maxThreads && t !in pool.free
      modifies this`writeIdx, this`eventCount, threadBuffer, records, events, pool
      ensures Shaped()
      ensures match Process(old(View()), t, dt, slice)
              case Success((w, l)) => error == None && View() == w && log == l
              case Failure(e) => error == Some(e)
    {
      CheckEndOn(t);
      error, log := RunState(t, dt, slice);
    }

    /** One turn of the loop, when there is a thread. */
    method TakeTurn(dt: real, script: Script) returns (error: Option<SchedulerError>, ghost log: Log)
      requires Valid() && Queue() != []
      modifies this, threadBuffer, records, events, pool
      ensures Shaped()
      ensures match Turn(old(View()), dt, script)
              case Success((w, l)) => error == None && View() == w && log == l
              case Failure(e) => error == Some(e)
    {
      ghost var w := View();
      var t := RemoveThread();
      InHand(w, View(), t.value);
      OwnedApart(w, [], t.value);
      error, log := RunOne(t.value, dt, script(t.value));
    }

    lemma EmptyIff()
      requires Shaped()
      ensures readIdx == writeIdx <==> Queue() == []
    {
      assert |Queue()| == Count(readIdx, writeIdx, maxThreads);
    }

    /** The loop over the threads that are queued at the start. */
    method TakeTurns(dt: real, script: Script, n: nat) returns (error: Option<SchedulerError>, ghost log: Log)
      requires Valid() && n == |Queue()|
      modifies this, threadBuffer, records, events, pool
      ensures Shaped()
      ensures match Turns(old(View()), n, TurnOf(dt, script))
              case Success((w, l)) => error == None && View() == w && log == l
              case Failure(e) => error == Some(e)
    {
      ghost var start := View();
      error, log := None, NOTHING;
      for i := 0 to n
        invariant Shaped() && error == None && n == |start.queue|
        invariant Turns(start, i, TurnOf(dt, script)) == Success((View(), log))
      {
        NextTurn(start, i, n, dt, script, View(), log);
        EmptyIff();
        if readIdx == writeIdx {
          break;
        }
        ghost var l;
        error, l := TakeTurn(dt, script);
        if error.Some? {
          return;
        }
        log := Both(log, l);
      }
    }

    /** `vm_run_threads`; `more` says whether any thread is left. */
    method RunThreads(dt: real, script: Script) returns (error: Option<SchedulerError>, more: bool, ghost log: Log)
      requires Valid()
      modifies this, threadBuffer, records, events, pool
      ensures match Tick(old(View()), dt, script)
              case Success((w, l)) => error == None && Valid() && View() == w && log == l && more == (Queue() != [])
              case Failure(e) => error == Some(e)
    {
      var n := ThreadCount();
      error, log := TakeTurns(dt, script, n);
      more := false;
      if error == None {
        TurnIsProper(dt, script);
        TurnsShape(old(View()), n, TurnOf(dt, script), View(), log);
        EventsDoNotMatter(View(), Compact(View().events));
        CompactEvents();
        more := readIdx != writeIdx;
      }
    }
  }

  /** Before the `i`-th turn the front of the queue is a thread that was there at the start, and its turn is the next one. */
  lemma NextTurn(start: World, i: nat, n: nat, dt: real, script: Script, w: World, l: Log)
    requires Conserved(start) && i < n == |start.queue| && Turns(start, i, TurnOf(dt, script)) == Success((w, l))
    ensures Conserved(w) && w.queue != []
    ensures match Turn(w, dt, script)
            case Success((w1, l1)) => Turns(start, i + 1, TurnOf(dt, script)) == Success((w1, Both(l, l1)))
            case Failure(e) => Turns(start, n, TurnOf(dt, script)) == Failure(e)
  {
    TurnIsProper(dt, script);
    TurnsShape(start, i, TurnOf(dt, script), w, l);
    OneMoreTurn(start, i, n, TurnOf(dt, script), w, l);
  }

  lemma OneMoreTurn(start: World, i: nat, n: nat, step: Step, w: World, l: Log)
    requires i < n && Turns(start, i, step) == Success((w, l))
    ensures match step(w)
            case Success((w1, l1)) => Turns(start, i + 1, step) == Success((w1, Both(l, l1)))
            case Failure(e) => Turns(start, n, step) == Failure(e)
  {
    TurnsSplit(start, i, 1, i + 1, step);
    TurnsSplit(start, i, n - i, n, step);
    if step(w).Success? {
      BothNothing(step(w).value.1);
    }
  }

  lemma {:induction false} PerformAllFails(w: World, self: nat, actions: seq<Action>, n: nat, e: SchedulerError)
    requires n <= |actions| && PerformAll(w, self, actions[..n]) == Failure(e)
    ensures PerformAll(w, self, actions) == Failure(e)
    decreases |actions|
  {
    var m := |actions| - 1;
    if n < |actions| {
      assert actions[..m][..n] == actions[..n];
      PerformAllFails(w, self, actions[..m], n, e);
    } else {
      assert actions[..n] == actions;
    }
  }
}
