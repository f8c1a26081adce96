/** Intrusive free lists: the reference registry of library.c and the object pool of object_pool.h. */
module FreeLists {
  import opened Wrappers

  /** No slot. */
  const NONE := -1

  /** The slot after the `k`-th one of a list. */
  function Following(free: seq<nat>, k: nat): int {
    if k + 1 < |free| then free[k + 1] else NONE
  }

  /** Following `next` from `head` visits the slots of `free`, in that order, each once. */
  predicate Lists(next: seq<int>, head: int, free: seq<nat>) {
    && head == (if free == [] then NONE else free[0])
    && (forall k :: 0 <= k < |free| ==> free[k] < |next|)
    && (forall k {:trigger Following(free, k)} :: 0 <= k < |free| ==> next[free[k]] == Following(free, k))
    && (forall j, k :: 0 <= j < k < |free| ==> free[j] != free[k])
  }

  /** Taking the first slot leaves the rest of the list. */
  lemma TakeFirst(next: seq<int>, head: int, free: seq<nat>, marked: seq<int>)
    requires Lists(next, head, free) && free != [] && |marked| == |next|
    requires forall i :: 0 <= i < |next| && i != head ==> marked[i] == next[i]
    ensures Lists(marked, next[head], free[1..]) && head !in free[1..]
  {
    var rest := free[1..];
    assert next[free[0]] == Following(free, 0);
    forall k | 0 <= k < |rest| ensures rest[k] != head && marked[rest[k]] == Following(rest, k) {
      var m := k + 1;
      assert rest[k] == free[m] != free[0];
      assert next[free[m]] == Following(free, m);
    }
  }

  lemma Others(next: seq<int>, head: int, free: seq<nat>, x: nat)
    requires Lists(next, head, free) && free != []
    ensures x in free <==> x == head || x in free[1..]
  {
    assert free == [free[0]] + free[1..];
  }

  /** A slot that is not on the list goes to its front. */
  lemma PutFirst(next: seq<int>, head: int, free: seq<nat>, slot: nat)
    requires Lists(next, head, free) && slot < |next| && slot !in free
    ensures Lists(next[slot := head], slot, [slot] + free)
  {
    var longer := [slot] + free;
    forall k | 0 <= k < |longer| ensures next[slot := head][longer[k]] == Following(longer, k) {
      if k > 0 {
        assert next[free[k - 1]] == Following(free, k - 1);
      }
    }
  }

  /** A slot that is on the list already must not be put on it again: the links would run in a circle. */
  lemma PutTwice(next: seq<int>, head: int, free: seq<nat>, slot: nat, longer: seq<nat>)
    requires Lists(next, head, free) && slot in free
    ensures !Lists(next[slot := head], slot, longer)
  {
    if Lists(next[slot := head], slot, longer) {
      var k :| 0 <= k < |free| && free[k] == slot;
      Circle(next, head, free, k, longer, k + 1);
    }
  }

  /** From the slot that was put on the list twice, one gets back to it. */
  lemma {:induction false} Circle(next: seq<int>, head: int, free: seq<nat>, k: nat, longer: seq<nat>, i: nat)
    requires Lists(next, head, free) && k < |free| && i <= k + 1
    requires Lists(next[free[k] := head], free[k], longer)
    ensures i < |longer| && longer[i] == if i == 0 then free[k] else free[i - 1]
    decreases i
  {
    if i > 0 {
      Circle(next, head, free, k, longer, i - 1);
      var slot := if i == 1 then free[k] else free[i - 2];
      assert longer[i - 1] == slot;
      assert i > 1 ==> free[i - 2] != free[k] && next[free[i - 2]] == Following(free, i - 2);
      assert next[free[k] := head][slot] == free[i - 1] >= 0;
      var m := i - 1;
      assert next[free[k] := head][longer[m]] == Following(longer, m);
    }
  }

  /** Every slot is either held or free, and only one of the two: as many handles can be held as there are slots. */
  lemma {:induction false} HeldAndFree(n: nat, free: seq<nat>)
    requires (forall k :: 0 <= k < |free| ==> free[k] < n) && forall j, k :: 0 <= j < k < |free| ==> free[j] != free[k]
    ensures |free| + |set i: nat | i < n && i !in free| == n
    decreases n
  {
    if n > 0 {
      var last := n - 1;
      var held := set i: nat | i < n && i !in free;
      if last in free {
        var k :| 0 <= k < |free| && free[k] == last;
        var rest := free[..k] + free[k + 1..];
        RestLacks(free, k);
        HeldAndFree(last, rest);
        assert held == set i: nat | i < last && i !in rest;
      } else {
        HeldAndFree(last, free);
        assert held == (set i: nat | i < last && i !in free) + {last};
      }
    }
  }

  lemma RestLacks(free: seq<nat>, k: nat)
    requires k < |free| && forall j, k :: 0 <= j < k < |free| ==> free[j] != free[k]
    ensures var rest := free[..k] + free[k + 1..];
            && (forall i, j :: 0 <= i < j < |rest| ==> rest[i] != rest[j])
            && forall x :: x in rest <==> x in free && x != free[k]
  {
    var rest := free[..k] + free[k + 1..];
    forall x | x in free && x != free[k] ensures x in rest {
      var i :| 0 <= i < |free| && free[i] == x;
      assert i < k ==> rest[i] == x;
      assert i > k ==> rest[i - 1] == x;
    }
    forall x | x in rest ensures x in free && x != free[k] {
      var i :| 0 <= i < |rest| && rest[i] == x;
    }
  }

  // ---- the reference registry ----

  datatype Slot<V> = Slot(value: Option<V>, nextFree: int)

  /** The links of the slots. */
  function Links<V>(slots: seq<Slot<V>>): (next: seq<int>)
    ensures |next| == |slots|
  {
    seq(|slots|, i requires 0 <= i < |slots| => slots[i].nextFree)
  }

  class RefRegistry<V> {
    const slots: array<Slot<V>>
    var refFree: int
    ghost var free: seq<nat>

    /** The free list is what it should be, and every other slot is marked as held. */
    ghost predicate Valid()
      reads this, slots
    {
      && slots.Length > 0 && Lists(Links(slots[..]), refFree, free)
      && (forall i :: 0 <= i < slots.Length && i !in free ==> slots[i].nextFree == NONE && slots[i].value.Some?)
      && forall i :: 0 <= i < slots.Length && i in free ==> slots[i].value.None?
    }

    /** The handles that are held, with their values. */
    ghost function Held(): map<nat, V>
      requires Valid()
      reads this, slots
    {
      map i | 0 <= i < slots.Length && i !in free :: slots[i].value.value
    }

    /** The set-up in `gsc_create`. */
    constructor (capacity: nat)
      requires capacity > 0
      ensures Valid() && Held() == map[] && fresh(slots) && slots.Length == capacity
      ensures |free| == capacity
    {
      slots := new Slot<V>[capacity](i => Slot(None, i + 1));
      refFree := 0;
      free := seq(capacity, i => i);
      new;
      slots[capacity - 1] := Slot(None, NONE);
      forall i | 0 <= i < capacity ensures i in free {
        assert free[i] == i;
      }
      forall k | 0 <= k < capacity ensures Links(slots[..])[free[k]] == Following(free, k) {
        assert free[k] == k;
      }
    }

    /** Held handles and free slots are all the slots, so exactly `capacity` handles can be held at once. */
    lemma HeldCount()
      requires Valid()
      ensures |Held()| + |free| == slots.Length
    {
      HeldAndFree(slots.Length, free);
      assert Held().Keys == set i: nat | i < slots.Length && i !in free;
      assert |Held()| == |Held().Keys|;
    }

    /** `gsc_ref`: a handle that is not held, for a value; none when all are held. */
    method Ref(v: V) returns (r: Option<nat>)
      requires Valid()
      modifies this, slots
      ensures Valid()
      ensures match r
              case Some(h) => h !in old(Held()) && Held() == old(Held())[h := v] && old(free) == [h] + free
              case None => old(free) == [] && Held() == old(Held())
    {
      if refFree == NONE {
        return None;
      }
      var slot: nat := refFree;
      ghost var next := Links(slots[..]);
      assert slot == free[0];
      refFree := slots[slot].nextFree;
      slots[slot] := Slot(Some(v), NONE);
      TakeFirst(next, slot, free, Links(slots[..]));
      forall i | 0 <= i < slots.Length ensures i in free <==> i == slot || i in free[1..] {
        Others(next, slot, free, i);
      }
      free := free[1..];
      assert forall i :: 0 <= i < slots.Length && i !in free ==> slots[i].nextFree == NONE && slots[i].value.Some?;
      return Some(slot);
    }

    /** The test with which `gsc_push_ref` and `gsc_unref` recognise a held handle. */
    predicate Accepted(h: int)
      reads this, slots
    {
      0 <= h < slots.Length && slots[h].nextFree == NONE
    }

    /** That test also accepts the last slot of the free list. */
    lemma AcceptedIffHeldOrLast(h: int)
      requires Valid()
      ensures Accepted(h) <==> h in Held() || (free != [] && h == free[|free| - 1])
    {
      if free != [] {
        assert free[|free| - 1] in free;
      }
      if 0 <= h < slots.Length && h in free {
        var k :| 0 <= k < |free| && free[k] == h;
        assert Links(slots[..])[free[k]] == slots[h].nextFree == Following(free, k);
        if k + 1 < |free| {
          assert slots[h].nextFree == free[k + 1] >= 0;
          assert free[k] != free[|free| - 1];
        }
      }
    }

    /**
     * `gsc_push_ref`: the value of a held handle, an error for anything else; but the last slot of the
     * free list passes for a held handle without a value.
     */
    method PushRef(h: int) returns (accepted: bool, value: Option<V>)
      requires Valid()
      ensures accepted <==> h in Held() || (free != [] && h == free[|free| - 1])
      ensures value == if h in Held() then Some(Held()[h]) else None
    {
      AcceptedIffHeldOrLast(h);
      if !Accepted(h) {
        return false, None;
      }
      return true, slots[h].value;
    }

    /**
     * `gsc_unref`: a held handle is released, and anything that is not accepted is ignored. The last slot
     * of the free list is accepted, and released again: that, and only that, spoils the list.
     */
    method Unref(h: int)
      requires Valid()
      modifies this, slots
      ensures Valid() <==> !(old(free) != [] && h == old(free)[|old(free)| - 1])
      ensures Valid() ==>
                if h in old(Held()) then Held() == old(Held()) - {h} && free == [h] + old(free)
                else Held() == old(Held()) && free == old(free)
    {
      AcceptedIffHeldOrLast(h);
      if !Accepted(h) {
        return;
      }
      ghost var next := Links(slots[..]);
      if h in free {
        PutTwice(next, refFree, free, h, [h] + free);
      } else {
        PutFirst(next, refFree, free, h);
      }
      slots[h] := Slot(None, refFree);
      assert Links(slots[..]) == next[h := refFree];
      refFree := h;
      free := [h] + free;
    }
  }

  // ---- the object pool ----

  /** Blocks are numbered as they are obtained; the first word of a free block is the link to the next. */
  class ObjectPool {
    var links: seq<int>
    var freeList: int
    var size: nat
    /** 0 means that the pool may grow without bound. */
    const capacity: nat
    ghost var free: seq<nat>

    ghost predicate Valid()
      reads this
    {
      |links| == size && Lists(links, freeList, free)
    }

    /** The blocks that are in use. */
    ghost function Used(): set<nat>
      reads this
    {
      set i: nat | i < size && i !in free
    }

    /** `object_pool_init`, with the loop that chains the blocks; without a capacity the pool does not grow. */
    constructor (initialSize: nat, capacity: Option<nat>)
      ensures Valid() && Used() == {} && size == |free| == initialSize && free == seq(initialSize, i => i)
      ensures this.capacity == if capacity.Some? then capacity.value else initialSize
    {
      this.capacity := if capacity.Some? then capacity.value else initialSize;
      size, links, freeList := initialSize, seq(initialSize, i => NONE), NONE;
      free := [];
      new;
      if initialSize > 0 {
        freeList := 0;
        free := seq(initialSize, i => i);
        for i := 0 to initialSize - 1
          invariant |links| == size == initialSize == |free| && freeList == 0 && free == seq(initialSize, i => i)
          invariant forall k :: 0 <= k < i ==> links[k] == k + 1
          invariant forall k :: i <= k < initialSize ==> links[k] == NONE
        {
          links := links[i := i + 1];
        }
        forall i: nat | i < initialSize ensures i in free {
          assert free[i] == i;
        }
      }
    }

    /** `object_pool_allocate_`: a block that is not in use; none when the pool is full. */
    method Allocate() returns (r: Option<nat>)
      requires Valid()
      modifies this
      ensures Valid()
      ensures match r
              case Some(b) => b < size && b !in old(Used()) && Used() == old(Used()) + {b} &&
                (if old(free) != [] then b == old(free)[0] && free == old(free)[1..] && size == old(size)
                 else b == old(size) && free == [] && size == old(size) + 1 && (capacity == 0 || size <= capacity))
              case None => old(free) == [] && capacity != 0 && size >= capacity && Used() == old(Used()) && free == [] && size == old(size)
    {
      if freeList == NONE {
        if capacity == 0 || size < capacity {
          links := links + [NONE];
          size := size + 1;
          assert Used() == old(Used()) + {size - 1};
          return Some(size - 1);
        }
        return None;
      }
      var b: nat := freeList;
      assert b == free[0];
      TakeFirst(links, freeList, free, links);
      freeList := links[b];
      free := free[1..];
      assert Used() == old(Used()) + {b};
      return Some(b);
    }

    /** `object_pool_deallocate`, for a block that is in use. */
    method Deallocate(b: nat)
      requires Valid() && b in Used()
      modifies this
      ensures Valid() && Used() == old(Used()) - {b} && free == [b] + old(free) && size == old(size)
    {
      PutFirst(links, freeList, free, b);
      links := links[b := freeList];
      freeList := b;
      free := [b] + free;
    }
  }
}
