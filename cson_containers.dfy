/**
  The two mutable containers of cson: the growable pointer array behind an
  Array value and the fixed table of bucket chains behind a Map value.

  Chain nodes are values here, so a write into a node in the middle of a
  chain (`item->value = ...`, `item->next = ...`) is modelled by relinking
  the nodes walked past in front of the changed node.
*/
module CsonContainers {
  import opened CsonValue

  /** The slots after popping slot `index`: the later slots move down by one, the last slot stays. */
  function ShiftDown(slots: seq<Option<Value>>, index: nat): (r: seq<Option<Value>>)
    requires index < |slots|
    ensures |r| == |slots|
  {
    slots[..index] + slots[index + 1..] + [slots[|slots| - 1]]
  }

  /**
    With the length cut back by one, the shifted slots are the elements with
    the one at `index` removed.
  */
  lemma ShiftDownRemoves(slots: seq<Option<Value>>, index: nat, size: nat)
    requires index < size <= |slots|
    ensures ShiftDown(slots, index)[..size - 1] == slots[..index] + slots[index + 1..size]
  {
    var r := ShiftDown(slots, index);
    forall i | 0 <= i < size - 1
      ensures r[i] == (slots[..index] + slots[index + 1..size])[i]
    {
      if i < index {
        assert r[i] == slots[i];
      } else {
        assert r[i] == slots[i + 1];
      }
    }
  }

  /**
    Popping the only element of a fresh one-element array leaves the array at
    length one, and that element is now the NULL moved down from the first
    unused slot.
  */
  lemma PopLeavesNullElement(x: Value)
    ensures var slots := [Some(x)] + seq(DefArrayCapacity - 1, _ => None);
      ShiftDown(slots, 0)[..1] == [None] != slots[..0] + slots[1..1]
  {
    var slots := [Some(x)] + seq(DefArrayCapacity - 1, _ => None);
    assert ShiftDown(slots, 0)[0] == slots[1];
  }

  /**
    A `CsonArray`: a buffer of `capacity` slots whose first `size` hold the
    elements. An empty slot (a NULL pointer) is `None`.
  */
  class CsonArray {
    var items: array<Option<Value>>
    var size: nat
    var capacity: nat

    ghost predicate Valid()
      reads this
    {
      items.Length == capacity && size <= capacity && capacity > 0
    }

    /** The elements, slots `0 .. size - 1`. */
    function Elements(): seq<Option<Value>>
      reads this, items
      requires Valid()
    {
      items[..size]
    }

    /** `cson_array_new`: no elements, `DefArrayCapacity` zeroed slots. */
    constructor ()
      ensures Valid() && fresh(items)
      ensures size == 0 && capacity == DefArrayCapacity
      ensures items[..] == seq(DefArrayCapacity, _ => None)
    {
      items := new Option<Value>[DefArrayCapacity](_ => None);
      size := 0;
      capacity := DefArrayCapacity;
    }

    /**
      `cson_array_get`: the element at `index`, or NULL when `index` is not
      below the length.
    */
    function Get(index: nat): (r: Option<Value>)
      reads this, items
      requires Valid()
      ensures index < size ==> r == Elements()[index]
      ensures index >= size ==> r.None?
    {
      if index < size then items[index] else None
    }

    /**
      `cson_array_push`: a NULL value is InvalidParam and changes nothing.
      Otherwise, when all slots are in use, the buffer is reallocated with
      `ArrayGrowthFactor` times the slots (the old ones copied, the new ones
      zeroed), and the value goes into slot `size`.
    */
    method Push(v: Option<Value>) returns (err: CsonError)
      requires Valid()
      modifies this, items
      ensures Valid()
      ensures v.None? ==> err == InvalidParam && unchanged(this) && items[..] == old(items[..])
      ensures v.Some? ==> err == Success && size == old(size) + 1
      ensures v.Some? ==> Elements() == old(Elements()) + [v]
      ensures v.Some? && old(size) >= old(capacity) ==> capacity == old(capacity) * ArrayGrowthFactor
      ensures v.Some? && old(size) < old(capacity) ==> capacity == old(capacity)
      ensures v.Some? && old(size) >= old(capacity) ==>
        fresh(items) && items[..] == (old(items[..]) + seq(old(capacity), _ => None))[old(size) := v]
      ensures v.Some? && old(size) < old(capacity) ==>
        items == old(items) && items[..] == old(items[..])[old(size) := v]
    {
      if v.None? {
        return InvalidParam;
      }
      if size >= capacity {
        var newCapacity := capacity * ArrayGrowthFactor;
        var grown := new Option<Value>[newCapacity](_ => None);
        var i := 0;
        while i < capacity
          modifies grown
          invariant 0 <= i <= capacity
          invariant grown[..i] == items[..i]
          invariant forall j :: i <= j < newCapacity ==> grown[j].None?
        {
          grown[i] := items[i];
          i := i + 1;
        }
        assert grown[..] == items[..] + seq(capacity, _ => None);
        items := grown;
        capacity := newCapacity;
      }
      items[size] := v;
      size := size + 1;
      return Success;
    }

    /**
      `cson_array_pop` as written: an index not below the length is
      IndexError; otherwise slots `index + 1 .. capacity - 1` move down by
      one, and the length is left as it was.
    */
    method Pop(index: nat) returns (err: CsonError)
      requires Valid()
      modifies items
      ensures Valid() && size == old(size)
      ensures index >= size ==> err == IndexError && items[..] == old(items[..])
      ensures index < size ==> err == Success && items[..] == ShiftDown(old(items[..]), index)
    {
      if index >= size {
        return IndexError;
      }
      ShiftSlots(index);
      return Success;
    }

    /**
      The pop as evidently intended: the same shift, then the length drops by
      one, so the elements are the old ones without the one at `index`.
    */
    method PopFixed(index: nat) returns (err: CsonError)
      requires Valid()
      modifies this, items
      ensures Valid() && items == old(items) && capacity == old(capacity)
      ensures index >= old(size) ==> err == IndexError && unchanged(this) && items[..] == old(items[..])
      ensures index < old(size) ==> err == Success && size == old(size) - 1
      ensures index < old(size) ==> Elements() == old(Elements()[..index] + Elements()[index + 1..])
    {
      if index >= size {
        return IndexError;
      }
      ghost var slots := items[..];
      ShiftSlots(index);
      ShiftDownRemoves(slots, index, size);
      size := size - 1;
      return Success;
    }

    /** The shifting loop shared by both pops. */
    method ShiftSlots(index: nat)
      requires Valid() && index < size
      modifies items
      ensures items[..] == ShiftDown(old(items[..]), index)
    {
      var i := index;
      while i < capacity - 1
        invariant index <= i <= capacity - 1
        invariant items[..i] == old(items[..index]) + old(items[index + 1..i + 1])
        invariant items[i..] == old(items[i..])
      {
        items[i] := items[i + 1];
        i := i + 1;
        assert items[..i] == items[..i - 1] + [items[i - 1]];
      }
      assert items[..] == items[..i] + items[i..];
    }
  }

  /* ---------- Walking a chain ---------- */

  /**
    The nodes walked past, nearest first, linked back in front of `rest`:
    the chain as it looks after a write at the node `rest` begins with.
  */
  function Relink(visited: Chain, rest: Chain): (r: Chain)
    ensures ChainLength(r) == ChainLength(visited) + ChainLength(rest)
    ensures forall k :: ChainHas(r, k) <==> ChainHas(visited, k) || ChainHas(rest, k)
  {
    if visited.Nil? then rest
    else Relink(visited.next, Node(visited.key, visited.value, rest))
  }

  lemma {:induction false} RelinkUpsert(visited: Chain, rest: Chain, key: string, v: Value)
    requires !ChainHas(visited, key)
    ensures ChainUpsert(Relink(visited, rest), key, v) == Relink(visited, ChainUpsert(rest, key, v))
  {
    if visited.Node? {
      RelinkUpsert(visited.next, Node(visited.key, visited.value, rest), key, v);
    }
  }

  lemma {:induction false} RelinkRemove(visited: Chain, rest: Chain, key: string)
    requires !ChainHas(visited, key)
    ensures ChainRemove(Relink(visited, rest), key) == Relink(visited, ChainRemove(rest, key))
  {
    if visited.Node? {
      RelinkRemove(visited.next, Node(visited.key, visited.value, rest), key);
    }
  }

  lemma {:induction false} RelinkFind(visited: Chain, rest: Chain, key: string)
    requires !ChainHas(visited, key)
    ensures ChainFind(Relink(visited, rest), key) == ChainFind(rest, key)
  {
    if visited.Node? {
      RelinkFind(visited.next, Node(visited.key, visited.value, rest), key);
    }
  }

  /** The keys of a chain, head first. */
  function ChainKeys(c: Chain): seq<string>
  {
    if c.Nil? then [] else [c.key] + ChainKeys(c.next)
  }

  lemma {:induction false} ChainKeysAreEntryKeys(c: Chain)
    ensures ChainKeys(c) == EntryKeys(ChainEntries(c))
  {
    if c.Node? {
      ChainKeysAreEntryKeys(c.next);
      assert ChainEntries(c)[1..] == ChainEntries(c.next);
    }
  }

  /** The inner loop of `cson_map_keys`: the copied keys of one chain, head first. */
  method ChainKeyList(c: Chain) returns (r: seq<string>)
    ensures r == CStrings(ChainKeys(c))
  {
    r := [];
    ghost var walked: seq<string> := [];
    var item := c;
    while item.Node?
      invariant walked + ChainKeys(item) == ChainKeys(c)
      invariant r == CStrings(walked)
      decreases item
    {
      assert (walked + [item.key])[..|walked|] == walked;
      r := r + [CString(item.key)];
      walked := walked + [item.key];
      item := item.next;
    }
    assert walked + ChainKeys(item) == walked;
  }

  /**
    A `CsonMap`: `MapCapacity` bucket heads and the entry counter. Its value
    as a map is `Model()`.
  */
  class CsonMap {
    var buckets: array<Chain>
    var size: nat

    function Model(): MapVal
      reads this, buckets
    {
      MapVal(buckets[..], size)
    }

    ghost predicate Valid()
      reads this, buckets
    {
      ValidMap(Model())
    }

    /** `cson_map_new`: `MapCapacity` empty buckets and no entries. */
    constructor ()
      ensures Valid() && fresh(buckets)
      ensures Model() == EmptyMap()
    {
      buckets := new Chain[MapCapacity](_ => Nil);
      size := 0;
      new;
      assert buckets[..] == EmptyMap().buckets;
    }

    /**
      `cson_map_get`: walk the chain of the key's bucket to the first node
      with that key.
    */
    method Get(key: string) returns (r: Option<Value>)
      requires Valid()
      ensures r == MapGet(Model(), key)
    {
      var h := Hash(key);
      var item := buckets[h % buckets.Length];
      while item.Node?
        invariant ChainFind(item, key) == MapGet(Model(), key)
        decreases item
      {
        var same := StrEquals(item.key, key);
        if same {
          return Some(item.value);
        }
        item := item.next;
      }
      return None;
    }

    /**
      `cson_map_insert`: a NULL value is InvalidParam. Otherwise the first
      node with the key gets the new value; without one, a node is linked
      after the last node of the chain (or becomes its head) and the counter
      grows by one.
    */
    method Insert(key: string, v: Option<Value>) returns (err: CsonError)
      requires Valid()
      modifies this, buckets
      ensures Valid() && buckets == old(buckets)
      ensures v.None? ==> err == InvalidParam && Model() == old(Model())
      ensures v.Some? ==> err == Success && Model() == MapInsert(old(Model()), key, v.value)
    {
      if v.None? {
        return InvalidParam;
      }
      ghost var m := Model();
      InsertSpec(m, key, v.value);
      var h := Hash(key);
      assert buckets.Length == |m.buckets| == MapCapacity;
      var b := h % buckets.Length;
      ghost var chain := buckets[b];
      var item := buckets[b];
      var visited := Nil;
      while item.Node?
        modifies buckets
        invariant buckets[..] == m.buckets
        invariant Relink(visited, item) == chain
        invariant !ChainHas(visited, key)
        decreases item
      {
        var same := StrEquals(item.key, key);
        if same {
          RelinkUpsert(visited, item, key, v.value);
          buckets[b] := Relink(visited, Node(item.key, v.value, item.next));
          assert Model() == MapInsert(m, key, v.value);
          return Success;
        }
        visited := Node(item.key, item.value, visited);
        item := item.next;
      }
      RelinkUpsert(visited, item, key, v.value);
      buckets[b] := Relink(visited, Node(key, v.value, Nil));
      size := size + 1;
      assert Model() == MapInsert(m, key, v.value);
      return Success;
    }

    /**
      `cson_map_remove`: unlink the first node with the key and count one
      entry less, or KeyError when the key's chain has no such node.
    */
    method Remove(key: string) returns (err: CsonError)
      requires Valid()
      modifies this, buckets
      ensures Valid() && buckets == old(buckets)
      ensures MapRemove(old(Model()), key).RemoveFailed? ==>
        err == KeyError && Model() == old(Model())
      ensures MapRemove(old(Model()), key).Removed? ==>
        err == Success && Model() == MapRemove(old(Model()), key).m
    {
      ghost var m := Model();
      RemoveSpec(m, key);
      var h := Hash(key);
      assert buckets.Length == |m.buckets| == MapCapacity;
      var b := h % buckets.Length;
      ghost var chain := buckets[b];
      CountUpdate(m.buckets, b, Nil);
      var item := buckets[b];
      if item.Nil? {
        return KeyError;
      }
      var same := StrEquals(item.key, key);
      if same {
        buckets[b] := item.next;
        size := size - 1;
        assert Model() == MapRemove(m, key).m;
        return Success;
      }
      var visited := Nil;
      while item.next.Node?
        modifies this, buckets
        invariant buckets == old(buckets) && size == m.size && buckets[..] == m.buckets
        invariant item.Node? && item.key != key
        invariant Relink(visited, item) == chain
        invariant !ChainHas(visited, key)
        decreases item
      {
        same := StrEquals(item.next.key, key);
        if same {
          RelinkRemove(visited, item, key);
          buckets[b] := Relink(visited, Node(item.key, item.value, item.next.next));
          size := size - 1;
          assert Model() == MapRemove(m, key).m;
          return Success;
        }
        visited := Node(item.key, item.value, visited);
        item := item.next;
      }
      return KeyError;
    }

    /**
      `cson_map_keys`: a fresh string for every key, bucket by bucket and each
      chain from its head. The copy is made through `strlen`, so it ends at
      the key's first NUL.
    */
    method KeyList() returns (r: seq<string>)
      ensures r == CStrings(Keys(Model()))
    {
      ghost var m := Model();
      r := [];
      var i := 0;
      while i < buckets.Length
        invariant 0 <= i <= buckets.Length == |m.buckets|
        invariant r == CStrings(EntryKeys(EntriesUpTo(m, i)))
      {
        var keys := ChainKeyList(buckets[i]);
        ChainKeysAreEntryKeys(buckets[i]);
        EntryKeysAppend(EntriesUpTo(m, i), ChainEntries(buckets[i]));
        CStringsAppend(EntryKeys(EntriesUpTo(m, i)), EntryKeys(ChainEntries(buckets[i])));
        r := r + keys;
        i := i + 1;
      }
    }
  }
}
