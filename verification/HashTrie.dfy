/**
 * The hash trie of hash_trie.h, and the field table of an object in vm.c, which is the same
 * structure: an insertion-ordered list and a 4-way tree over the same nodes. It is a map.
 */
module HashTries {
  import opened Wrappers
  import opened Syntax

  /** No node. Nodes are named by their order of allocation. */
  const NULL := -1

  datatype Node = Node(key: string, child: seq<int>, next: int)

  const WORD := 0x1_0000_0000_0000_0000
  const MULTIPLIER := 1111111111111111111

  /** `uint64_t`. */
  type Word = x: int | 0 <= x < WORD witness 0

  /** Bitwise exclusive or of the lowest bits. */
  function Xor(a: nat, b: nat, bits: nat): nat {
    if bits == 0 then 0 else (if a % 2 == b % 2 then 0 else 1) + 2 * Xor(a / 2, b / 2, bits - 1)
  }

  /** `h ^= c; h *= 1111111111111111111u`. */
  function Mix(h: Word, c: char): Word {
    Xor(h, c as int, 64) * MULTIPLIER % WORD
  }

  /** Each level of the tree looks at the two highest bits of the hash, and shifts them out. */
  function Branch(h: Word): (b: nat)
    ensures b < 4
  {
    h / 0x4000_0000_0000_0000
  }

  function Shift(h: Word): Word {
    h * 4 % WORD
  }

  /** `hash_trie_hash_func_`, from character `i` on. */
  function HashFrom(s: string, i: nat, h: Word, caseSensitive: bool): Word
    requires i <= |s|
    decreases |s| - i
  {
    if i == |s| then h else HashFrom(s, i + 1, Mix(h, if caseSensitive then s[i] else LowerChar(s[i])), caseSensitive)
  }

  function Hash(s: string, caseSensitive: bool): Word {
    HashFrom(s, 0, 0x100, caseSensitive)
  }

  /** Keys are the same when `strcmp`, or without case `stricmp`, says so. */
  function Canon(s: string, caseSensitive: bool): string {
    if caseSensitive then s else Lower(s)
  }

  lemma {:induction false} HashFromAgrees(a: string, b: string, i: nat, h: Word, caseSensitive: bool)
    requires Canon(a, caseSensitive) == Canon(b, caseSensitive) && |a| == |b| && i <= |a|
    ensures HashFrom(a, i, h, caseSensitive) == HashFrom(b, i, h, caseSensitive)
    decreases |a| - i
  {
    if i < |a| {
      assert Canon(a, caseSensitive)[i] == Canon(b, caseSensitive)[i];
      HashFromAgrees(a, b, i + 1, Mix(h, if caseSensitive then a[i] else LowerChar(a[i])), caseSensitive);
    }
  }

  /** Equal keys have equal hashes. */
  lemma HashAgrees(a: string, b: string, caseSensitive: bool)
    requires Canon(a, caseSensitive) == Canon(b, caseSensitive)
    ensures Hash(a, caseSensitive) == Hash(b, caseSensitive)
  {
    assert |a| == |Canon(a, caseSensitive)| == |b|;
    HashFromAgrees(a, b, 0, 0x100, caseSensitive);
  }

  // ---- the nodes ----

  /** Children are allocated after their parents, so a search goes forward. */
  predicate Forward(nodes: seq<Node>) {
    forall i :: 0 <= i < |nodes| ==>
      |nodes[i].child| == 4 &&
      forall b :: 0 <= b < 4 ==> nodes[i].child[b] == NULL || i < nodes[i].child[b] < |nodes|
  }

  /** Where the search for a key ends: at a node, or at an empty branch. */
  datatype Place = Found(node: nat) | Vacant(parent: nat, branch: nat)

  /** The search of `hash_trie_upsert` from node `i` on, with what is left of the hash. */
  function Search(nodes: seq<Node>, i: nat, h: Word, key: string, caseSensitive: bool): (p: Place)
    requires Forward(nodes) && i < |nodes|
    ensures match p
            case Found(n) => i <= n < |nodes| && Canon(nodes[n].key, caseSensitive) == Canon(key, caseSensitive)
            case Vacant(n, b) => i <= n < |nodes| && b < 4 && nodes[n].child[b] == NULL
    decreases |nodes| - i
  {
    if Canon(nodes[i].key, caseSensitive) == Canon(key, caseSensitive) then Found(i)
    else
      var next := nodes[i].child[Branch(h)];
      if next == NULL then Vacant(i, Branch(h)) else Search(nodes, next, Shift(h), key, caseSensitive)
  }

  /** One turn of the search. */
  lemma SearchGoesOn(nodes: seq<Node>, i: nat, h: Word, key: string, caseSensitive: bool)
    requires Forward(nodes) && i < |nodes| && Canon(nodes[i].key, caseSensitive) != Canon(key, caseSensitive)
    ensures var next := nodes[i].child[Branch(h)];
            Search(nodes, i, h, key, caseSensitive) ==
            if next == NULL then Vacant(i, Branch(h)) else Search(nodes, next, Shift(h), key, caseSensitive)
  {
  }

  /** The `next` list is the nodes in the order of their allocation. */
  predicate Chained(nodes: seq<Node>) {
    forall i :: 0 <= i < |nodes| ==> nodes[i].next == if i + 1 < |nodes| then i + 1 else NULL
  }

  predicate DistinctKeys(nodes: seq<Node>, caseSensitive: bool) {
    forall i, j :: 0 <= i < j < |nodes| ==> Canon(nodes[i].key, caseSensitive) != Canon(nodes[j].key, caseSensitive)
  }

  /** Every key is found. */
  predicate Reachable(nodes: seq<Node>, caseSensitive: bool)
    requires Forward(nodes)
  {
    forall i :: 0 <= i < |nodes| ==>
      Search(nodes, 0, Hash(nodes[i].key, caseSensitive), nodes[i].key, caseSensitive) == Found(i)
  }

  predicate WellFormed(nodes: seq<Node>, caseSensitive: bool) {
    Forward(nodes) && Chained(nodes) && DistinctKeys(nodes, caseSensitive) && Reachable(nodes, caseSensitive)
  }

  /** The keys in the order in which they were inserted. */
  function Keys(nodes: seq<Node>, caseSensitive: bool): (ks: seq<string>)
    ensures |ks| == |nodes|
  {
    seq(|nodes|, i requires 0 <= i < |nodes| => Canon(nodes[i].key, caseSensitive))
  }

  // ---- the effect of an insertion ----

  /** A new node at the end of the list and at a vacant branch of the tree. */
  function Insert(nodes: seq<Node>, p: Place, key: string): (r: seq<Node>)
    requires Forward(nodes) && p.Vacant? && p.parent < |nodes| && p.branch < 4
    ensures |r| == |nodes| + 1
  {
    var n, last := |nodes|, |nodes| - 1;
    var a := nodes[p.parent := nodes[p.parent].(child := nodes[p.parent].child[p.branch := n])];
    a[last := a[last].(next := n)] + [Node(key, [NULL, NULL, NULL, NULL], NULL)]
  }

  lemma InsertKeepsForward(nodes: seq<Node>, p: Place, key: string)
    requires Forward(nodes) && p.Vacant? && p.parent < |nodes| && p.branch < 4
    ensures Forward(Insert(nodes, p, key))
    ensures forall i :: 0 <= i < |nodes| ==> Insert(nodes, p, key)[i].key == nodes[i].key
    ensures forall i, b :: 0 <= i < |nodes| && 0 <= b < 4 && !(i == p.parent && b == p.branch) ==>
      Insert(nodes, p, key)[i].child[b] == nodes[i].child[b]
    ensures Insert(nodes, p, key)[p.parent].child[p.branch] == |nodes|
  {
  }

  lemma InsertKeepsChain(nodes: seq<Node>, p: Place, key: string)
    requires Forward(nodes) && Chained(nodes) && p.Vacant? && p.parent < |nodes| && p.branch < 4
    ensures Chained(Insert(nodes, p, key))
  {
  }

  /** A search that found its node finds it still; one that ended at the branch finds the new node. */
  lemma {:induction false} SearchAfterInsert(nodes: seq<Node>, p: Place, key: string, i: nat, h: Word, wanted: string,
                                             caseSensitive: bool)
    requires Forward(nodes) && p.Vacant? && p.parent < |nodes| && p.branch < 4 && nodes[p.parent].child[p.branch] == NULL
    requires i < |nodes|
    ensures Forward(Insert(nodes, p, key))
    ensures var r := Search(Insert(nodes, p, key), i, h, wanted, caseSensitive);
            match Search(nodes, i, h, wanted, caseSensitive)
            case Found(n) => r == Found(n)
            case Vacant(_, _) => Canon(key, caseSensitive) == Canon(wanted, caseSensitive) && Search(nodes, i, h, wanted, caseSensitive) == p
                                 ==> r == Found(|nodes|)
    decreases |nodes| - i
  {
    InsertKeepsForward(nodes, p, key);
    if Canon(nodes[i].key, caseSensitive) != Canon(wanted, caseSensitive) {
      var next := nodes[i].child[Branch(h)];
      if next != NULL {
        SearchAfterInsert(nodes, p, key, next, Shift(h), wanted, caseSensitive);
      }
    }
  }

  /** The search depends on the key only up to equality of keys. */
  lemma {:induction false} SearchSameFrom(nodes: seq<Node>, i: nat, h: Word, a: string, b: string, caseSensitive: bool)
    requires Forward(nodes) && i < |nodes| && Canon(a, caseSensitive) == Canon(b, caseSensitive)
    ensures Search(nodes, i, h, a, caseSensitive) == Search(nodes, i, h, b, caseSensitive)
    decreases |nodes| - i
  {
    if Canon(nodes[i].key, caseSensitive) != Canon(a, caseSensitive) && nodes[i].child[Branch(h)] != NULL {
      SearchSameFrom(nodes, nodes[i].child[Branch(h)], Shift(h), a, b, caseSensitive);
    }
  }

  lemma SearchSame(nodes: seq<Node>, a: string, b: string, caseSensitive: bool)
    requires Forward(nodes) && nodes != [] && Canon(a, caseSensitive) == Canon(b, caseSensitive)
    ensures Search(nodes, 0, Hash(a, caseSensitive), a, caseSensitive) ==
            Search(nodes, 0, Hash(b, caseSensitive), b, caseSensitive)
  {
    HashAgrees(a, b, caseSensitive);
    SearchSameFrom(nodes, 0, Hash(a, caseSensitive), a, b, caseSensitive);
  }

  lemma InsertIsWellFormed(nodes: seq<Node>, p: Place, key: string, caseSensitive: bool)
    requires WellFormed(nodes, caseSensitive) && nodes != []
    requires p == Search(nodes, 0, Hash(key, caseSensitive), key, caseSensitive) && p.Vacant?
    ensures WellFormed(Insert(nodes, p, key), caseSensitive)
    ensures Keys(Insert(nodes, p, key), caseSensitive) == Keys(nodes, caseSensitive) + [Canon(key, caseSensitive)]
  {
    InsertKeepsForward(nodes, p, key);
    InsertKeepsChain(nodes, p, key);
    NewKey(nodes, p, key, caseSensitive);
    InsertKeepsReachable(nodes, p, key, caseSensitive);
  }

  lemma NewKey(nodes: seq<Node>, p: Place, key: string, caseSensitive: bool)
    requires WellFormed(nodes, caseSensitive) && nodes != []
    requires p == Search(nodes, 0, Hash(key, caseSensitive), key, caseSensitive) && p.Vacant?
    ensures DistinctKeys(Insert(nodes, p, key), caseSensitive)
  {
    forall i | 0 <= i < |nodes| ensures Canon(nodes[i].key, caseSensitive) != Canon(key, caseSensitive) {
      if Canon(nodes[i].key, caseSensitive) == Canon(key, caseSensitive) {
        SearchSame(nodes, nodes[i].key, key, caseSensitive);
      }
    }
    InsertKeepsForward(nodes, p, key);
  }

  lemma InsertKeepsReachable(nodes: seq<Node>, p: Place, key: string, caseSensitive: bool)
    requires WellFormed(nodes, caseSensitive) && nodes != []
    requires p == Search(nodes, 0, Hash(key, caseSensitive), key, caseSensitive) && p.Vacant?
    ensures Forward(Insert(nodes, p, key)) && Reachable(Insert(nodes, p, key), caseSensitive)
  {
    var r := Insert(nodes, p, key);
    InsertKeepsForward(nodes, p, key);
    forall i | 0 <= i < |r|
      ensures Search(r, 0, Hash(r[i].key, caseSensitive), r[i].key, caseSensitive) == Found(i)
    {
      SearchAfterInsert(nodes, p, key, 0, Hash(r[i].key, caseSensitive), r[i].key, caseSensitive);
    }
  }

  /** A key is found exactly when it was inserted, and then at its place in the order of insertion. */
  lemma SearchIsMembership(nodes: seq<Node>, key: string, caseSensitive: bool)
    requires WellFormed(nodes, caseSensitive) && nodes != []
    ensures var p := Search(nodes, 0, Hash(key, caseSensitive), key, caseSensitive);
            && (p.Found? <==> Canon(key, caseSensitive) in Keys(nodes, caseSensitive))
            && (p.Found? ==> Keys(nodes, caseSensitive)[p.node] == Canon(key, caseSensitive))
  {
    var p, ks := Search(nodes, 0, Hash(key, caseSensitive), key, caseSensitive), Keys(nodes, caseSensitive);
    if p.Found? {
      assert ks[p.node] == Canon(key, caseSensitive);
    }
    if Canon(key, caseSensitive) in ks {
      var i :| 0 <= i < |ks| && ks[i] == Canon(key, caseSensitive);
      SearchSame(nodes, nodes[i].key, key, caseSensitive);
    }
  }

  /** Appending first and linking then is the same. */
  lemma LinkIsInsert(nodes: seq<Node>, i: nat, b: nat, key: string)
    requires Forward(nodes) && i < |nodes| && b < 4
    ensures var n, last := |nodes|, |nodes| - 1;
            var a := nodes + [Node(key, [NULL, NULL, NULL, NULL], NULL)];
            var c := a[i := a[i].(child := a[i].child[b := n])];
            c[last := c[last].(next := n)] == Insert(nodes, Vacant(i, b), key)
  {
  }

  // ---- the structure that is updated in place ----

  class HashTrie<V> {
    const caseSensitive: bool
    var nodes: seq<Node>
    var values: seq<Option<V>>
    var head: int
    /** The node whose `next` is written by the next insertion; NULL stands for `head` itself. */
    var tail: int
    /** `field_count` of an object. */
    var count: nat

    ghost predicate Valid()
      reads this
    {
      && WellFormed(nodes, caseSensitive) && |values| == |nodes| == count
      && head == (if nodes == [] then NULL else 0) && tail == |nodes| - 1
    }

    /** The keys in the order of their insertion. */
    ghost function Contents(): seq<string>
      requires Valid()
      reads this
    {
      Keys(nodes, caseSensitive)
    }

    /** `hash_trie_init`. */
    constructor (caseSensitive: bool)
      ensures Valid() && Contents() == [] && this.caseSensitive == caseSensitive
    {
      this.caseSensitive := caseSensitive;
      nodes, values, head, tail, count := [], [], NULL, NULL, 0;
    }

    /** `hash_trie_init` on a trie that is used again. */
    method Init()
      modifies this
      ensures Valid() && Contents() == []
    {
      nodes, values, head, tail, count := [], [], NULL, NULL, 0;
    }

    /** The loop over the hash in `hash_trie_hash_func_`. */
    method HashKey(key: string) returns (h: Word)
      ensures h == Hash(key, caseSensitive)
    {
      h := 0x100;
      for i := 0 to |key|
        invariant HashFrom(key, i, h, caseSensitive) == Hash(key, caseSensitive)
      {
        h := Mix(h, if caseSensitive then key[i] else LowerChar(key[i]));
      }
    }

    /**
     * `hash_trie_upsert` and `vm_object_upsert`: the node of a key. Without an allocator a missing
     * key is reported and nothing changes; with one it is appended, with no value yet.
     */
    method Upsert(key: string, allocate: bool) returns (r: Option<nat>)
      requires Valid()
      modifies this
      ensures Valid()
      ensures match r
              case Some(n) => n < count && Contents()[n] == Canon(key, caseSensitive)
              case None => !allocate && Canon(key, caseSensitive) !in old(Contents())
      ensures if allocate && Canon(key, caseSensitive) !in old(Contents())
              then Contents() == old(Contents()) + [Canon(key, caseSensitive)] && values == old(values) + [None]
              else nodes == old(nodes) && values == old(values) && count == old(count)
    {
      var h := HashKey(key);
      if head == NULL {
        if !allocate {
          return None;
        }
        nodes, values, count := [Node(key, [NULL, NULL, NULL, NULL], NULL)], [None], 1;
        head, tail := 0, 0;
        return Some(0);
      }
      SearchIsMembership(nodes, key, caseSensitive);
      var p := Walk(key, h);
      match p
      case Found(n) => return Some(n);
      case Vacant(i, b) =>
        if !allocate {
          return None;
        }
        InsertIsWellFormed(nodes, p, key, caseSensitive);
        Link(i, b, key);
        return Some(|nodes| - 1);
    }

    /** The loop down the tree, to the node of the key or to the branch where it is missing. */
    method Walk(key: string, hash: Word) returns (p: Place)
      requires Valid() && nodes != []
      ensures p == Search(nodes, 0, hash, key, caseSensitive)
    {
      var i: nat, h := 0, hash;
      while Canon(nodes[i].key, caseSensitive) != Canon(key, caseSensitive)
        invariant i < |nodes| && Search(nodes, i, h, key, caseSensitive) == Search(nodes, 0, hash, key, caseSensitive)
        decreases |nodes| - i
      {
        var b := Branch(h);
        SearchGoesOn(nodes, i, h, key, caseSensitive);
        if nodes[i].child[b] == NULL {
          return Vacant(i, b);
        }
        i, h := nodes[i].child[b], Shift(h);
      }
      return Found(i);
    }

    /** The new node: `*m = node; *tail = node; tail = &node->next`. */
    method Link(i: nat, b: nat, key: string)
      requires Valid() && nodes != [] && i < |nodes| && b < 4
      modifies this
      ensures nodes == Insert(old(nodes), Vacant(i, b), key) && values == old(values) + [None]
      ensures head == old(head) && tail == |nodes| - 1 && count == old(count) + 1
    {
      var n := |nodes|;
      LinkIsInsert(nodes, i, b, key);
      nodes := nodes + [Node(key, [NULL, NULL, NULL, NULL], NULL)];
      nodes := nodes[i := nodes[i].(child := nodes[i].child[b := n])];
      nodes := nodes[tail := nodes[tail].(next := n)];
      tail := n;
      values := values + [None];
      count := count + 1;
    }

    /** `entry->value = v`. */
    method SetValue(n: nat, v: V)
      requires Valid() && n < count
      modifies this
      ensures Valid() && Contents() == old(Contents()) && values == old(values)[n := Some(v)]
    {
      values := values[n := Some(v)];
    }

    /** Following `next` from `head` visits every key once, in the order of insertion. */
    method Enumerate() returns (ks: seq<string>)
      requires Valid()
      ensures ks == Contents()
    {
      ks := [];
      var it := head;
      while it != NULL
        invariant Valid() && |ks| <= |nodes| && it == (if |ks| < |nodes| then |ks| else NULL)
        invariant ks == Contents()[..|ks|]
        decreases |nodes| - |ks|
      {
        ks := ks + [Canon(nodes[it].key, caseSensitive)];
        it := nodes[it].next;
      }
    }
  }
}
