/**
 * The string table of string_table.h: entries with dense indices over one buffer of characters.
 * Interning is a stable bijection between the strings seen so far and 0, 1, 2, ...
 */
module StringTables {
  import opened Wrappers
  import opened HashTries

  const TERMINATOR := '\0'

  /** An entry that was never issued is all zeros. */
  datatype Entry = Entry(child: seq<int>, offset: nat)

  datatype TableError = OutOfCharacters | OutOfEntries

  /** A string as C has it: without the terminator inside. */
  predicate IsCString(s: string) {
    TERMINATOR !in s
  }

  /** The characters from an offset up to the terminator. */
  function StringAt(buffer: seq<char>, offset: nat): string
    requires offset <= |buffer|
    decreases |buffer| - offset
  {
    if offset == |buffer| || buffer[offset] == TERMINATOR then ""
    else [buffer[offset]] + StringAt(buffer, offset + 1)
  }

  /** `strcmp` at an offset, one character after another. */
  method Matches(buffer: array<char>, used: nat, offset: nat, s: string) returns (same: bool)
    requires offset <= used <= buffer.Length && IsCString(s)
    ensures same <==> StringAt(buffer[..used], offset) == s
  {
    ghost var b := buffer[..used];
    var i := 0;
    while i < |s| && offset + i < used && buffer[offset + i] == s[i]
      invariant i <= |s| && offset + i <= used
      invariant StringAt(b, offset) == s <==> StringAt(b, offset + i) == s[i..]
    {
      assert s[i] != TERMINATOR && b[offset + i] == s[i];
      assert s[i..] == [s[i]] + s[i + 1..];
      assert StringAt(b, offset + i) == [s[i]] + StringAt(b, offset + i + 1);
      Tails(s[i], StringAt(b, offset + i + 1), s[i + 1..]);
      i := i + 1;
    }
    same := i == |s| && (offset + i == used || buffer[offset + i] == TERMINATOR);
    if i < |s| {
      assert s[i..][0] == s[i];
    }
  }

  lemma Tails(c: char, a: string, b: string)
    ensures [c] + a == [c] + b <==> a == b
  {
    assert ([c] + a)[1..] == a && ([c] + b)[1..] == b;
  }

  /** A string that is appended with its terminator is there, and no other string changes. */
  lemma {:induction false} Appended(buffer: seq<char>, s: string, i: nat)
    requires IsCString(s) && i <= |s|
    ensures StringAt(buffer + s + [TERMINATOR], |buffer| + i) == s[i..]
    decreases |s| - i
  {
    var b := buffer + s + [TERMINATOR];
    if i < |s| {
      Appended(buffer, s, i + 1);
      assert b[|buffer| + i] == s[i];
      assert s[i..] == [s[i]] + s[i + 1..];
    } else {
      assert b[|buffer| + i] == TERMINATOR;
    }
  }

  /** The strings in a buffer are terminated inside it. */
  predicate Terminated(buffer: seq<char>) {
    buffer == [] || buffer[|buffer| - 1] == TERMINATOR
  }

  lemma {:induction false} Preserved(buffer: seq<char>, more: seq<char>, offset: nat)
    requires Terminated(buffer) && offset < |buffer|
    ensures StringAt(buffer + more, offset) == StringAt(buffer, offset)
    decreases |buffer| - offset
  {
    if buffer[offset] != TERMINATOR {
      Preserved(buffer, more, offset + 1);
    }
  }

  // ---- the table as a list of strings ----

  function Position(table: seq<string>, s: string): (k: nat)
    ensures k <= |table|
    ensures s in table ==> k < |table| && table[k] == s
    ensures k < |table| ==> table[k] == s
  {
    if table == [] || table[0] == s then 0 else 1 + Position(table[1..], s)
  }

  /** What interning a string does to the table. */
  function Interned(table: seq<string>, s: string): seq<string> {
    if s in table then table else table + [s]
  }

  /** The table after interning some strings in a row. */
  function InternedAll(table: seq<string>, ss: seq<string>): seq<string> {
    if ss == [] then table else Interned(InternedAll(table, ss[..|ss| - 1]), ss[|ss| - 1])
  }

  /** What interning the `i`-th string of a run returns. */
  function IndexOfRun(ss: seq<string>, i: nat): nat
    requires i < |ss|
  {
    Position(InternedAll([], ss[..i + 1]), ss[i])
  }

  predicate Distinct(table: seq<string>) {
    forall i, j :: 0 <= i < j < |table| ==> table[i] != table[j]
  }

  lemma {:induction false} RunIsDistinct(ss: seq<string>)
    ensures Distinct(InternedAll([], ss))
    decreases |ss|
  {
    if ss != [] {
      RunIsDistinct(ss[..|ss| - 1]);
    }
  }

  /** Later strings only append. */
  lemma {:induction false} RunGrows(ss: seq<string>, i: nat)
    requires i <= |ss|
    ensures InternedAll([], ss[..i]) <= InternedAll([], ss)
    decreases |ss|
  {
    if i < |ss| {
      var before := ss[..|ss| - 1];
      RunGrows(before, i);
      assert before[..i] == ss[..i];
    } else {
      assert ss[..i] == ss;
    }
  }

  lemma {:induction false} RunContents(ss: seq<string>, x: string)
    ensures x in InternedAll([], ss) <==> x in ss
    decreases |ss|
  {
    if ss != [] {
      RunContents(ss[..|ss| - 1], x);
      assert ss == ss[..|ss| - 1] + [ss[|ss| - 1]];
    }
  }

  /** In the final table, the string of an index that was ever returned is still the one interned for it. */
  lemma IndexIsStable(ss: seq<string>, i: nat)
    requires i < |ss|
    ensures IndexOfRun(ss, i) < |InternedAll([], ss)| && InternedAll([], ss)[IndexOfRun(ss, i)] == ss[i]
  {
    var now := InternedAll([], ss[..i + 1]);
    RunContents(ss[..i + 1], ss[i]);
    assert ss[..i + 1][i] == ss[i];
    RunGrows(ss, i + 1);
  }

  /** Two strings get the same index exactly when they are the same string. */
  lemma InternIsInjective(ss: seq<string>, i: nat, j: nat)
    requires i < |ss| && j < |ss|
    ensures IndexOfRun(ss, i) == IndexOfRun(ss, j) <==> ss[i] == ss[j]
  {
    IndexIsStable(ss, i);
    IndexIsStable(ss, j);
    RunIsDistinct(ss);
  }

  /** Indices are dense: every index below the size of the table was returned for some string. */
  lemma IndicesAreDense(ss: seq<string>, k: nat) returns (i: nat)
    requires k < |InternedAll([], ss)|
    ensures i < |ss| && IndexOfRun(ss, i) == k
  {
    RunContents(ss, InternedAll([], ss)[k]);
    i :| 0 <= i < |ss| && ss[i] == InternedAll([], ss)[k];
    IndexIsStable(ss, i);
    RunIsDistinct(ss);
  }

  lemma {:induction false} OnlyPosition(table: seq<string>, i: nat)
    requires Distinct(table) && i < |table|
    ensures Position(table, table[i]) == i
  {
    var k := Position(table, table[i]);
    assert table[k] == table[i];
  }

  // ---- the tree over the entries ----

  /** The nodes of the trie that the entries form: the key of an entry is its string. */
  ghost function Nodes(entries: seq<Entry>, buffer: seq<char>): (ns: seq<Node>)
    requires forall i :: 0 <= i < |entries| ==> entries[i].offset <= |buffer|
    ensures |ns| == |entries|
  {
    seq(|entries|, i requires 0 <= i < |entries| =>
      Node(StringAt(buffer, entries[i].offset), entries[i].child, if i + 1 < |entries| then i + 1 else NULL))
  }

  class StringTable {
    const buffer: array<char>
    const entries: array<Entry>
    /** Where the next string goes. */
    var used: nat
    /** The number of entries that have been issued. */
    var index: nat

    ghost predicate Shaped()
      reads this, buffer, entries
    {
      && used <= buffer.Length && index <= entries.Length && Terminated(buffer[..used])
      && (forall i :: 0 <= i < index ==> entries[i].offset < used)
      && (forall i :: index <= i < entries.Length ==> entries[i] == Entry([NULL, NULL, NULL, NULL], 0))
    }

    ghost function View(): seq<Node>
      requires Shaped()
      reads this, buffer, entries
    {
      Nodes(entries[..index], buffer[..used])
    }

    ghost predicate Valid()
      reads this, buffer, entries
    {
      Shaped() && WellFormed(View(), true)
    }

    /** The strings in the order in which they were interned: the one with index `i` is the `i`-th. */
    ghost function Strings(): (ss: seq<string>)
      requires Valid()
      reads this, buffer, entries
      ensures |ss| == index
    {
      Keys(View(), true)
    }

    /** `string_table_init`, with room for that many characters and entries. */
    constructor (characters: nat, maxEntries: nat)
      ensures Valid() && Strings() == [] && fresh(buffer) && fresh(entries)
      ensures buffer.Length == characters && entries.Length == maxEntries
    {
      buffer := new char[characters](_ => TERMINATOR);
      entries := new Entry[maxEntries](_ => Entry([NULL, NULL, NULL, NULL], 0));
      used, index := 0, 0;
    }

    /** `string_table_get`: the string of an index; an index that was not issued yet reads offset 0. */
    method Get(i: int) returns (r: Option<string>)
      requires Valid()
      ensures r == if i < 0 || i >= entries.Length then None
                   else if i < index then Some(Strings()[i])
                   else Some(StringAt(buffer[..used], 0))
    {
      if i < 0 || i >= entries.Length {
        return None;
      }
      var offset := entries[i].offset;
      var s := "";
      ghost var b := buffer[..used];
      var j := offset;
      while j < used && buffer[j] != TERMINATOR
        invariant offset <= j <= used
        invariant StringAt(b, offset) == s + StringAt(b, j)
      {
        s := s + [buffer[j]];
        j := j + 1;
      }
      assert StringAt(b, j) == "" && s + "" == s;
      return Some(s);
    }

    // ---- interning ----

    /** `new(&table->begin, char, n)` and `memcpy`: the string with its terminator, after the others. */
    method Duplicate(s: string) returns (offset: nat)
      requires Shaped() && IsCString(s) && used + |s| + 1 <= buffer.Length
      modifies `used, buffer
      ensures offset == old(used) && used == old(used) + |s| + 1 && index == old(index)
      ensures buffer[..used] == old(buffer[..used]) + s + [TERMINATOR] && Shaped()
    {
      offset := used;
      for i := 0 to |s|
        invariant used == offset && buffer[..used] == old(buffer[..used])
        invariant buffer[used..used + i] == s[..i]
      {
        buffer[used + i] := s[i];
      }
      buffer[used + |s|] := TERMINATOR;
      assert buffer[..used + |s|] == buffer[..used] + buffer[used..used + |s|];
      assert buffer[..used + |s| + 1] == buffer[..used + |s|] + [TERMINATOR];
      used := used + |s| + 1;
    }

    /** More characters do not change the strings that are there. */
    static lemma NodesKept(es: seq<Entry>, b: seq<char>, more: seq<char>)
      requires Terminated(b) && forall i :: 0 <= i < |es| ==> es[i].offset < |b|
      ensures Nodes(es, b + more) == Nodes(es, b)
    {
      forall i | 0 <= i < |es| ensures StringAt(b + more, es[i].offset) == StringAt(b, es[i].offset) {
        Preserved(b, more, es[i].offset);
      }
    }

    /** The entries with a new one, linked at a branch. */
    static ghost function Linked(es: seq<Entry>, p: nat, c: nat, offset: nat): (r: seq<Entry>)
      requires p < |es| && c < |es[p].child|
      ensures |r| == |es| + 1
    {
      es[p := es[p].(child := es[p].child[c := |es|])] + [Entry([NULL, NULL, NULL, NULL], offset)]
    }

    /** A new entry for the appended string, linked at a vacant branch, is an insertion. */
    static lemma NodesInserted(es: seq<Entry>, b: seq<char>, s: string, p: nat, c: nat)
      requires Terminated(b) && IsCString(s) && forall i :: 0 <= i < |es| ==> es[i].offset < |b|
      requires (forall i :: 0 <= i < |es| ==> |es[i].child| == 4) && Forward(Nodes(es, b)) && p < |es| && c < 4
      ensures var more := b + s + [TERMINATOR];
              Nodes(Linked(es, p, c, |b|), more) == Insert(Nodes(es, b), Vacant(p, c), s)
    {
      var more := b + s + [TERMINATOR];
      var linked := Linked(es, p, c, |b|);
      assert more == b + (s + [TERMINATOR]);
      NodesKept(es, b, s + [TERMINATOR]);
      Appended(b, s, 0);
      assert s[0..] == s;
      var left, right := Nodes(linked, more), Insert(Nodes(es, b), Vacant(p, c), s);
      forall i | 0 <= i < |left| ensures left[i] == right[i] {
        if i < |es| {
          assert Nodes(es, more)[i].key == Nodes(es, b)[i].key;
        }
      }
    }

    /**
     * `string_table_intern`. A string that is there keeps its index; a new one gets the next. When
     * the characters run out nothing changes; when the entries run out the characters are spent.
     */
    method Intern(s: string) returns (r: Result<nat, TableError>)
      requires Valid() && IsCString(s)
      modifies this, buffer, entries
      ensures Valid()
      ensures match r
              case Success(i) => Strings() == Interned(old(Strings()), s) && i == Position(Strings(), s)
              case Failure(e) =>
                s !in old(Strings()) && Strings() == old(Strings()) &&
                (e == OutOfCharacters <==> old(used) + |s| + 1 > buffer.Length) &&
                (e == OutOfEntries <==> old(used) + |s| + 1 <= buffer.Length && index == entries.Length)
    {
      if index == 0 {
        r := AddFirst(s);
      } else {
        r := FindOrAdd(s);
      }
      if r.Success? {
        assert Distinct(Strings());
        OnlyPosition(Strings(), r.value);
      }
    }

    /** The walk down the tree. */
    method FindOrAdd(s: string) returns (r: Result<nat, TableError>)
      requires Valid() && IsCString(s) && index > 0
      modifies this, buffer, entries
      ensures Valid()
      ensures match r
              case Success(i) => Strings() == Interned(old(Strings()), s) && i < index && Strings()[i] == s
              case Failure(e) =>
                s !in old(Strings()) && Strings() == old(Strings()) &&
                (e == OutOfCharacters <==> old(used) + |s| + 1 > buffer.Length) &&
                (e == OutOfEntries <==> old(used) + |s| + 1 <= buffer.Length && index == entries.Length)
    {
      var h := HashWord(s);
      ghost var ns := View();
      SearchIsMembership(ns, s, true);
      var p := Walk(s, h);
      match p
      case Found(i) => return Success(i);
      case Vacant(i, c) => r := AddAt(s, i, c);
    }

    /** The loop down the tree. */
    method Walk(s: string, hash: Word) returns (p: Place)
      requires Valid() && IsCString(s) && index > 0
      ensures p == Search(View(), 0, hash, s, true)
    {
      ghost var ns := View();
      var i: nat, h := 0, hash;
      while true
        invariant i < index && Search(ns, i, h, s, true) == Search(ns, 0, hash, s, true)
        decreases index - i
      {
        var same := Matches(buffer, used, entries[i].offset, s);
        if same {
          return Found(i);
        }
        var c := Branch(h);
        SearchGoesOn(ns, i, h, s, true);
        if entries[i].child[c] == NULL {
          return Vacant(i, c);
        }
        i, h := entries[i].child[c], Shift(h);
      }
    }

    method HashWord(s: string) returns (h: Word)
      ensures h == Hash(s, true)
    {
      h := 0x100;
      for i := 0 to |s|
        invariant HashFrom(s, i, h, true) == Hash(s, true)
      {
        h := Mix(h, s[i]);
      }
    }

    /** The first string of an empty table. */
    method AddFirst(s: string) returns (r: Result<nat, TableError>)
      requires Valid() && IsCString(s) && index == 0
      modifies this, buffer, entries
      ensures Valid()
      ensures match r
              case Success(i) => Strings() == [s] && i == 0
              case Failure(e) =>
                Strings() == [] &&
                (e == OutOfCharacters <==> old(used) + |s| + 1 > buffer.Length) &&
                (e == OutOfEntries <==> old(used) + |s| + 1 <= buffer.Length && index == entries.Length)
    {
      if used + |s| + 1 > buffer.Length {
        return Failure(OutOfCharacters);
      }
      ghost var b := buffer[..used];
      var offset := Duplicate(s);
      if index >= entries.Length {
        return Failure(OutOfEntries);
      }
      entries[0] := Entry([NULL, NULL, NULL, NULL], offset);
      index := 1;
      Appended(b, s, 0);
      assert View()[0].key == s[0..] == s;
      return Success(0);
    }

    /** A new string at a vacant branch. */
    method AddAt(s: string, p: nat, c: nat) returns (r: Result<nat, TableError>)
      requires Valid() && IsCString(s) && p < index && c < 4
      requires Search(View(), 0, Hash(s, true), s, true) == Vacant(p, c)
      modifies this, buffer, entries
      ensures Valid()
      ensures match r
              case Success(i) => Strings() == old(Strings()) + [s] && i == old(index)
              case Failure(e) =>
                Strings() == old(Strings()) &&
                (e == OutOfCharacters <==> old(used) + |s| + 1 > buffer.Length) &&
                (e == OutOfEntries <==> old(used) + |s| + 1 <= buffer.Length && index == entries.Length)
    {
      if used + |s| + 1 > buffer.Length {
        return Failure(OutOfCharacters);
      }
      ghost var b := buffer[..used];
      var offset := DuplicateKeeps(s);
      if index >= entries.Length {
        return Failure(OutOfEntries);
      }
      LinkString(s, p, c, offset, b);
      return Success(index - 1);
    }

    /** The next entry, for the string that was appended last. */
    method LinkString(s: string, p: nat, c: nat, offset: nat, ghost b: seq<char>)
      requires Valid() && IsCString(s) && p < index < entries.Length && c < 4
      requires Terminated(b) && offset == |b| && buffer[..used] == b + s + [TERMINATOR]
      requires (forall i :: 0 <= i < index ==> entries[i].offset < |b|) && View() == Nodes(entries[..index], b)
      requires Search(View(), 0, Hash(s, true), s, true) == Vacant(p, c)
      modifies `index, entries
      ensures Valid() && index == old(index) + 1 && Strings() == old(Strings()) + [s]
    {
      ghost var es, ns := entries[..index], View();
      assert forall i :: 0 <= i < index ==> ns[i].child == es[i].child;
      InsertIsWellFormed(ns, Vacant(p, c), s, true);
      NodesInserted(es, b, s, p, c);
      Link(p, c, offset);
    }

    /** Duplicating changes no string of the table. */
    method DuplicateKeeps(s: string) returns (offset: nat)
      requires Valid() && IsCString(s) && used + |s| + 1 <= buffer.Length
      modifies `used, buffer
      ensures offset == old(used) && used == old(used) + |s| + 1 && index == old(index)
      ensures buffer[..used] == old(buffer[..used]) + s + [TERMINATOR] && Valid() && View() == old(View())
    {
      ghost var b, es := buffer[..used], entries[..index];
      NodesKept(es, b, s + [TERMINATOR]);
      offset := Duplicate(s);
      assert b + s + [TERMINATOR] == b + (s + [TERMINATOR]);
    }

    /** The next entry, linked at a branch. */
    method Link(p: nat, c: nat, offset: nat)
      requires Shaped() && p < index < entries.Length && c < |entries[p].child| && offset < used
      modifies `index, entries
      ensures Shaped() && index == old(index) + 1 && entries[..index] == Linked(old(entries[..index]), p, c, offset)
    {
      entries[index] := Entry([NULL, NULL, NULL, NULL], offset);
      entries[p] := entries[p].(child := entries[p].child[c := index]);
      index := index + 1;
    }
  }
}
