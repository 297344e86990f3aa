/**
  The cson value store: the seven kinds of tagged values, the 32-bit integer
  payload, C strings, the DJB2 string hash, the fixed-bucket map with chained
  buckets, and the path lookup `cson__get`.

  A value is a tree: the parser and the constructors always allocate fresh
  nodes, so no two containers share a child. Characters stand for the bytes of
  the C `char` buffers (code points below 256).
*/
module CsonValue {

  /* ---------- Wrappers ---------- */

  datatype Option<T> = None | Some(value: T)

  /** The error codes of `CsonError`, in declaration order. */
  datatype CsonError =
    | Success | InvalidParam | InvalidType | Alloc | FileNotFound
    | UnexpectedToken | EndOfBuffer | Unimplemented | UnclosedString
    | IndexError | KeyError | AnyError | NoError

  /* ---------- Constants of cson.h ---------- */

  const DefArrayCapacity: nat := 16
  const ArrayGrowthFactor: nat := 2
  const MapCapacity: nat := 16
  const DefIndent: nat := 4
  const PrintIndent: nat := 4
  const RegionCapacity: nat := 2 * 1024

  /* ---------- The C `int` payload ---------- */

  newtype int32 = x: int | -0x8000_0000 <= x < 0x8000_0000

  /**
    Conversion of a wider integer to `int32_t`: two's complement truncation
    modulo 2^32 (the modulus is written as a literal throughout, which keeps
    the arithmetic linear for the verifier).
  */
  function WrapInt32(x: int): (r: int32)
    ensures (r as int - x) % 0x1_0000_0000 == 0
    ensures -0x8000_0000 <= x < 0x8000_0000 ==> r as int == x
  {
    var m := x % 0x1_0000_0000;
    if m < 0x8000_0000 then m as int32 else (m - 0x1_0000_0000) as int32
  }

  /* ---------- Values ---------- */

  /** The seven kinds of `CsonType`. */
  datatype Kind = IntKind | FloatKind | BoolKind | NullKind | StringKind | ArrayKind | MapKind

  /**
    A tagged value. `Float` keeps the literal's text: the conversion by `atof`
    and printing with `%lf` are outside this model.
  */
  datatype Value =
    | Int(i: int32)
    | Float(text: string)
    | Bool(b: bool)
    | Null
    | Str(s: string)
    | Arr(items: seq<Value>)
    | Obj(m: MapVal)

  /**
    A bucket chain of `CsonMapItem` nodes, head first; `next` is the link to
    the following node.
  */
  datatype Chain = Nil | Node(key: string, value: Value, next: Chain)

  /**
    A `CsonMap`: one chain per bucket and the stored `size` counter. The
    number of buckets is the map's `capacity`; every map the model builds has
    `MapCapacity` of them (see ValidMap), and the operations below leave a
    table without buckets unchanged instead of dividing by zero.
  */
  datatype MapVal = MapVal(buckets: seq<Chain>, size: nat)

  function KindOf(v: Value): Kind
  {
    match v
    case Int(_) => IntKind
    case Float(_) => FloatKind
    case Bool(_) => BoolKind
    case Null => NullKind
    case Str(_) => StringKind
    case Arr(_) => ArrayKind
    case Obj(_) => MapKind
  }

  /* ---------- C strings ---------- */

  /** What `strlen` sees of a buffer: everything before the first NUL. */
  function CString(s: string): (r: string)
    ensures '\0' !in r
    ensures |r| <= |s| && r == s[..|r|]
    ensures |r| < |s| ==> s[|r|] == '\0'
  {
    if s == [] || s[0] == '\0' then [] else [s[0]] + CString(s[1..])
  }

  /** The C strings of a list of buffers. */
  function CStrings(ss: seq<string>): (r: seq<string>)
    ensures |r| == |ss|
  {
    if ss == [] then [] else CStrings(ss[..|ss| - 1]) + [CString(ss[|ss| - 1])]
  }

  lemma {:induction false} CStringsAppend(xs: seq<string>, ys: seq<string>)
    ensures CStrings(xs + ys) == CStrings(xs) + CStrings(ys)
    decreases ys
  {
    if ys == [] {
      assert xs + ys == xs;
    } else {
      var n := |ys| - 1;
      assert (xs + ys)[..|xs + ys| - 1] == xs + ys[..n];
      CStringsAppend(xs, ys[..n]);
    }
  }

  lemma {:induction false} CStringOfPlain(s: string)
    requires '\0' !in s
    ensures CString(s) == s
  {
    if s != [] {
      CStringOfPlain(s[1..]);
    }
  }

  /* ---------- Hashing and equality ---------- */

  const HashSeed: nat := 5381

  /** The value a signed C `char` contributes to an `int` expression. */
  function SignedChar(c: char): (r: int)
    ensures -128 <= r < 128
  {
    var b := c as int % 256;
    if b < 128 then b else b - 256
  }

  /** DJB2 over a byte string, reduced modulo 2^32 as `uint32_t` arithmetic is. */
  function Djb2(s: string): (h: nat)
    ensures h < 0x1_0000_0000
  {
    if s == [] then HashSeed
    else (Djb2(s[..|s| - 1]) * 33 + SignedChar(s[|s| - 1])) % 0x1_0000_0000
  }

  /** `cson_hash`: the accumulator loop of DJB2. */
  method Hash(s: string) returns (h: nat)
    ensures h == Djb2(s)
  {
    h := HashSeed;
    var i := 0;
    while i < |s|
      invariant 0 <= i <= |s|
      invariant h == Djb2(s[..i])
    {
      assert s[..i + 1][..i] == s[..i];
      h := (h * 33 + SignedChar(s[i])) % 0x1_0000_0000;
      i := i + 1;
    }
    assert s[..i] == s;
  }

  /** `cson_str_equals`: equal lengths, then a byte-by-byte comparison. */
  method StrEquals(a: string, b: string) returns (eq: bool)
    ensures eq <==> a == b
  {
    if |a| != |b| {
      return false;
    }
    var i := 0;
    while i < |a|
      invariant 0 <= i <= |a|
      invariant a[..i] == b[..i]
    {
      if a[i] != b[i] {
        return false;
      }
      i := i + 1;
    }
    assert a == a[..i] && b == b[..i];
    return true;
  }

  /* ---------- Bucket chains ---------- */

  /** The bucket `key` hashes to in a table of `capacity` buckets. */
  function BucketOf(key: string, capacity: nat): (b: nat)
    ensures capacity > 0 ==> b < capacity
  {
    if capacity == 0 then 0 else Djb2(key) % capacity
  }

  /** The chain of bucket `b`; empty outside the table. */
  function ChainAt(m: MapVal, b: nat): Chain
  {
    if b < |m.buckets| then m.buckets[b] else Nil
  }

  function ChainLength(c: Chain): nat
  {
    if c.Nil? then 0 else 1 + ChainLength(c.next)
  }

  predicate ChainHas(c: Chain, key: string)
  {
    c.Node? && (c.key == key || ChainHas(c.next, key))
  }

  /** No key occurs twice in the chain. */
  predicate ChainUnique(c: Chain)
  {
    c.Nil? || (!ChainHas(c.next, c.key) && ChainUnique(c.next))
  }

  /** Every key of the chain hashes to bucket `b`. */
  predicate ChainInBucket(c: Chain, b: nat, capacity: nat)
  {
    c.Nil? || (BucketOf(c.key, capacity) == b && ChainInBucket(c.next, b, capacity))
  }

  /** The value of the first node whose key is `key`: the search loop of `cson_map_get`. */
  function ChainFind(c: Chain, key: string): (r: Option<Value>)
    ensures r.Some? <==> ChainHas(c, key)
    ensures r.Some? ==> r.value < c
  {
    match c
    case Nil => None
    case Node(k, v, next) => if k == key then Some(v) else ChainFind(next, key)
  }

  /**
    The chain after `cson_map_insert`: the first node with `key` gets the new
    value; if there is none, a node is linked after the last one.
  */
  function ChainUpsert(c: Chain, key: string, v: Value): (r: Chain)
    ensures ChainLength(r) == ChainLength(c) + (if ChainHas(c, key) then 0 else 1)
    ensures forall k :: ChainHas(r, k) <==> k == key || ChainHas(c, k)
  {
    match c
    case Nil => Node(key, v, Nil)
    case Node(k, w, next) =>
      if k == key then Node(k, v, next) else Node(k, w, ChainUpsert(next, key, v))
  }

  /** The chain after `cson_map_remove` unlinks the first node with `key`. */
  function ChainRemove(c: Chain, key: string): (r: Chain)
    ensures ChainLength(r) == ChainLength(c) - (if ChainHas(c, key) then 1 else 0)
    ensures forall k :: ChainHas(r, k) ==> ChainHas(c, k)
  {
    match c
    case Nil => Nil
    case Node(k, w, next) =>
      if k == key then next else Node(k, w, ChainRemove(next, key))
  }

  lemma {:induction false} UpsertFind(c: Chain, key: string, v: Value, k: string)
    ensures ChainFind(ChainUpsert(c, key, v), k) == if k == key then Some(v) else ChainFind(c, k)
  {
    if c.Node? && c.key != key {
      UpsertFind(c.next, key, v, k);
    }
  }

  lemma {:induction false} UpsertKeepsInvariant(c: Chain, key: string, v: Value, b: nat, capacity: nat)
    requires ChainUnique(c) && ChainInBucket(c, b, capacity) && BucketOf(key, capacity) == b
    ensures ChainUnique(ChainUpsert(c, key, v)) && ChainInBucket(ChainUpsert(c, key, v), b, capacity)
  {
    if c.Node? && c.key != key {
      UpsertKeepsInvariant(c.next, key, v, b, capacity);
    }
  }

  lemma {:induction false} RemoveFind(c: Chain, key: string, k: string)
    requires ChainUnique(c)
    ensures ChainFind(ChainRemove(c, key), k) == if k == key then None else ChainFind(c, k)
  {
    if c.Node? {
      if c.key == key {
        assert ChainFind(c.next, key).None?;
      } else {
        RemoveFind(c.next, key, k);
      }
    }
  }

  lemma {:induction false} RemoveKeepsInvariant(c: Chain, key: string, b: nat, capacity: nat)
    requires ChainUnique(c) && ChainInBucket(c, b, capacity)
    ensures ChainUnique(ChainRemove(c, key)) && ChainInBucket(ChainRemove(c, key), b, capacity)
  {
    if c.Node? && c.key != key {
      RemoveKeepsInvariant(c.next, key, b, capacity);
    }
  }

  lemma {:induction false} InBucketHas(c: Chain, b: nat, capacity: nat, k: string)
    requires ChainInBucket(c, b, capacity) && ChainHas(c, k)
    ensures BucketOf(k, capacity) == b
  {
    if c.key != k {
      InBucketHas(c.next, b, capacity, k);
    }
  }

  /* ---------- The map ---------- */

  predicate Distinct(s: seq<string>)
  {
    forall i, j :: 0 <= i < j < |s| ==> s[i] != s[j]
  }

  /** A fresh map: `MapCapacity` empty buckets and size 0 (`cson_map_new`). */
  function EmptyMap(): (m: MapVal)
    ensures ValidMap(m)
    ensures forall k :: MapGet(m, k).None?
  {
    var m := MapVal(seq(MapCapacity, _ => Nil), 0);
    assert Count(m.buckets) == 0 by { CountEmpty(MapCapacity); }
    m
  }

  lemma {:induction false} CountEmpty(n: nat)
    ensures Count(seq(n, _ => Nil)) == 0
  {
    if n > 0 {
      assert seq(n, _ => Nil)[..n - 1] == seq(n - 1, _ => Nil);
      CountEmpty(n - 1);
    }
  }

  /** Number of nodes over all chains. */
  function Count(buckets: seq<Chain>): nat
  {
    if buckets == [] then 0
    else Count(buckets[..|buckets| - 1]) + ChainLength(buckets[|buckets| - 1])
  }

  lemma {:induction false} CountUpdate(buckets: seq<Chain>, b: nat, c: Chain)
    requires b < |buckets|
    ensures Count(buckets[b := c]) == Count(buckets) - ChainLength(buckets[b]) + ChainLength(c)
  {
    var n := |buckets|;
    if b < n - 1 {
      assert buckets[b := c][..n - 1] == buckets[..n - 1][b := c];
      CountUpdate(buckets[..n - 1], b, c);
    } else {
      assert buckets[b := c][..n - 1] == buckets[..n - 1];
    }
  }

  /**
    The map invariant: the fixed capacity, every node in the bucket of its key,
    no key twice in a chain, and `size` equal to the number of nodes.
  */
  predicate ValidMap(m: MapVal)
  {
    && |m.buckets| == MapCapacity
    && ChainsValid(m)
    && m.size == Count(m.buckets)
  }

  /** `cson_map_get` on a map: search the chain of the key's bucket. */
  function MapGet(m: MapVal, key: string): Option<Value>
  {
    ChainFind(ChainAt(m, BucketOf(key, |m.buckets|)), key)
  }

  predicate HasKey(m: MapVal, key: string)
  {
    ChainHas(ChainAt(m, BucketOf(key, |m.buckets|)), key)
  }

  /** A value found in a map is structurally smaller than the map. */
  lemma MapGetSmaller(m: MapVal, key: string)
    requires MapGet(m, key).Some?
    ensures MapGet(m, key).value < m
  {
    var b := BucketOf(key, |m.buckets|);
    assert ChainAt(m, b) in m.buckets;
  }

  /** `cson_map_insert` on a map: upsert into the key's chain, counting new keys. */
  function MapInsert(m: MapVal, key: string, v: Value): MapVal
  {
    var b := BucketOf(key, |m.buckets|);
    if |m.buckets| == 0 then m
    else MapVal(m.buckets[b := ChainUpsert(m.buckets[b], key, v)],
                if HasKey(m, key) then m.size else m.size + 1)
  }

  /**
    Insertion keeps the map invariant; afterwards `key` maps to `v` and every
    other key to what it mapped to before; `size` grows by one exactly when
    the key is new.
  */
  lemma InsertSpec(m: MapVal, key: string, v: Value)
    requires ValidMap(m)
    ensures ValidMap(MapInsert(m, key, v))
    ensures MapGet(MapInsert(m, key, v), key) == Some(v)
    ensures forall k :: k != key ==> MapGet(MapInsert(m, key, v), k) == MapGet(m, k)
    ensures MapInsert(m, key, v).size == if HasKey(m, key) then m.size else m.size + 1
  {
    var b := BucketOf(key, MapCapacity);
    var m' := MapInsert(m, key, v);
    UpsertKeepsInvariant(m.buckets[b], key, v, b, MapCapacity);
    CountUpdate(m.buckets, b, ChainUpsert(m.buckets[b], key, v));
    UpsertFind(m.buckets[b], key, v, key);
    forall k | k != key
      ensures MapGet(m', k) == MapGet(m, k)
    {
      UpsertFind(m.buckets[b], key, v, k);
    }
  }

  datatype Removal = Removed(m: MapVal) | RemoveFailed(err: CsonError)

  /** `cson_map_remove` on a map: unlink the key's node, or KeyError. */
  function MapRemove(m: MapVal, key: string): Removal
  {
    var b := BucketOf(key, |m.buckets|);
    if |m.buckets| == 0 || !HasKey(m, key) then RemoveFailed(KeyError)
    else Removed(MapVal(m.buckets[b := ChainRemove(m.buckets[b], key)],
                        if m.size > 0 then m.size - 1 else 0))
  }

  /**
    Removal fails with KeyError exactly when the key is absent; otherwise the
    map stays valid, has one entry less, no longer holds `key`, and every
    other key keeps its value.
  */
  lemma RemoveSpec(m: MapVal, key: string)
    requires ValidMap(m)
    ensures MapRemove(m, key).RemoveFailed? <==> MapGet(m, key).None?
    ensures MapRemove(m, key).RemoveFailed? ==> MapRemove(m, key).err == KeyError
    ensures MapRemove(m, key).Removed? ==>
      var m' := MapRemove(m, key).m;
      && ValidMap(m')
      && m'.size == m.size - 1
      && MapGet(m', key).None?
      && forall k :: k != key ==> MapGet(m', k) == MapGet(m, k)
  {
    var b := BucketOf(key, MapCapacity);
    if HasKey(m, key) {
      var m' := MapRemove(m, key).m;
      RemoveKeepsInvariant(m.buckets[b], key, b, MapCapacity);
      CountUpdate(m.buckets, b, ChainRemove(m.buckets[b], key));
      RemoveFind(m.buckets[b], key, key);
      forall k | k != key
        ensures MapGet(m', k) == MapGet(m, k)
      {
        RemoveFind(m.buckets[b], key, k);
      }
    }
  }

  /* ---------- Entries in visiting order ---------- */

  /** The key-value pairs of a chain, head first. */
  function ChainEntries(c: Chain): (r: seq<(string, Value)>)
    ensures |r| == ChainLength(c)
  {
    if c.Nil? then [] else [(c.key, c.value)] + ChainEntries(c.next)
  }

  /** Every value of a chain is part of it. */
  lemma {:induction false} ChainEntrySmaller(c: Chain, i: nat)
    requires i < |ChainEntries(c)|
    ensures ChainEntries(c)[i].1 < c
    decreases c
  {
    if i > 0 {
      ChainEntrySmaller(c.next, i - 1);
    }
  }

  /**
    The entries of buckets `0 .. b - 1`, bucket by bucket and each chain from
    its head: the order of `cson_map_keys` and of the writer.
  */
  function EntriesUpTo(m: MapVal, b: nat): (r: seq<(string, Value)>)
    requires b <= |m.buckets|
  {
    if b == 0 then []
    else
      EntriesUpTo(m, b - 1) + ChainEntries(m.buckets[b - 1])
  }

  /** Every value of a map's entries is part of the map. */
  lemma {:induction false} EntrySmaller(m: MapVal, b: nat, i: nat)
    requires b <= |m.buckets| && i < |EntriesUpTo(m, b)|
    ensures EntriesUpTo(m, b)[i].1 < m
  {
    var prefix := EntriesUpTo(m, b - 1);
    if i < |prefix| {
      EntrySmaller(m, b - 1, i);
    } else {
      ChainEntrySmaller(m.buckets[b - 1], i - |prefix|);
      assert m.buckets[b - 1] in m.buckets;
    }
  }

  function Entries(m: MapVal): seq<(string, Value)>
  {
    EntriesUpTo(m, |m.buckets|)
  }

  function EntryKeys(es: seq<(string, Value)>): (r: seq<string>)
    ensures |r| == |es|
    ensures forall i :: 0 <= i < |es| ==> r[i] == es[i].0
  {
    if es == [] then [] else [es[0].0] + EntryKeys(es[1..])
  }

  /** `cson_map_keys`: the keys in visiting order. */
  function Keys(m: MapVal): seq<string>
  {
    EntryKeys(Entries(m))
  }

  lemma {:induction false} ChainEntriesKeys(c: Chain)
    ensures forall k :: k in EntryKeys(ChainEntries(c)) <==> ChainHas(c, k)
    ensures ChainUnique(c) ==> Distinct(EntryKeys(ChainEntries(c)))
  {
    if c.Node? {
      ChainEntriesKeys(c.next);
      var r, s := EntryKeys(ChainEntries(c)), EntryKeys(ChainEntries(c.next));
      assert r == [c.key] + s;
      if ChainUnique(c) {
        forall i, j | 0 <= i < j < |r|
          ensures r[i] != r[j]
        {
          if i == 0 {
            assert r[j] in s;
          } else {
            assert r[i] == s[i - 1] && r[j] == s[j - 1];
          }
        }
      }
    }
  }

  /** A key not yet in the chain is linked in as its new last node. */
  lemma {:induction false} UpsertAppends(c: Chain, key: string, v: Value)
    requires !ChainHas(c, key)
    ensures ChainEntries(ChainUpsert(c, key, v)) == ChainEntries(c) + [(key, v)]
  {
    if c.Node? {
      UpsertAppends(c.next, key, v);
    }
  }

  lemma {:induction false} EntryKeysAppend(xs: seq<(string, Value)>, ys: seq<(string, Value)>)
    ensures EntryKeys(xs + ys) == EntryKeys(xs) + EntryKeys(ys)
  {
    var r := EntryKeys(xs + ys);
    assert |r| == |EntryKeys(xs) + EntryKeys(ys)|;
    forall i | 0 <= i < |r|
      ensures r[i] == (EntryKeys(xs) + EntryKeys(ys))[i]
    {
      if i < |xs| {
        assert (xs + ys)[i] == xs[i];
      } else {
        assert (xs + ys)[i] == ys[i - |xs|];
      }
    }
  }

  lemma DistinctAppend(a: seq<string>, c: seq<string>)
    requires Distinct(a) && Distinct(c)
    requires forall k :: k in a ==> k !in c
    ensures Distinct(a + c)
  {
    forall i, j | 0 <= i < j < |a + c|
      ensures (a + c)[i] != (a + c)[j]
    {
      if j < |a| {
        assert (a + c)[i] == a[i] && (a + c)[j] == a[j];
      } else if i >= |a| {
        assert (a + c)[i] == c[i - |a|] && (a + c)[j] == c[j - |a|];
      } else {
        assert (a + c)[i] == a[i] && (a + c)[j] == c[j - |a|];
        assert (a + c)[j] in c;
        assert (a + c)[i] in a;
      }
    }
  }

  /** The chains of `m` are in their buckets and free of duplicate keys. */
  predicate ChainsValid(m: MapVal)
  {
    forall b :: 0 <= b < |m.buckets| ==>
      ChainInBucket(m.buckets[b], b, |m.buckets|) && ChainUnique(m.buckets[b])
  }

  lemma {:induction false} EntriesUpToCount(m: MapVal, b: nat)
    requires b <= |m.buckets|
    ensures |EntriesUpTo(m, b)| == Count(m.buckets[..b])
  {
    if b > 0 {
      EntriesUpToCount(m, b - 1);
      assert m.buckets[..b][..b - 1] == m.buckets[..b - 1];
    }
  }

  /** `key` is held by the chain of its bucket, and that bucket is one of the first `b`. */
  predicate InFirstBuckets(m: MapVal, b: nat, key: string)
  {
    var i := BucketOf(key, |m.buckets|);
    i < b && i < |m.buckets| && ChainHas(m.buckets[i], key)
  }

  lemma {:induction false} EntriesUpToKeys(m: MapVal, b: nat)
    requires b <= |m.buckets| && ChainsValid(m)
    ensures forall k :: k in EntryKeys(EntriesUpTo(m, b)) <==> InFirstBuckets(m, b, k)
  {
    if b > 0 {
      EntriesUpToKeys(m, b - 1);
      var last := m.buckets[b - 1];
      ChainEntriesKeys(last);
      var a, c := EntryKeys(EntriesUpTo(m, b - 1)), EntryKeys(ChainEntries(last));
      EntryKeysAppend(EntriesUpTo(m, b - 1), ChainEntries(last));
      assert EntryKeys(EntriesUpTo(m, b)) == a + c;
      forall k
        ensures k in a + c <==> InFirstBuckets(m, b, k)
      {
        KeyInFirstBuckets(m, b, k, k in a, k in c);
      }
    }
  }

  /** One key seen against the first `b` buckets: those before `b - 1`, or bucket `b - 1`. */
  lemma KeyInFirstBuckets(m: MapVal, b: nat, k: string, inA: bool, inC: bool)
    requires 0 < b <= |m.buckets| && ChainsValid(m)
    requires inA <==> InFirstBuckets(m, b - 1, k)
    requires inC <==> ChainHas(m.buckets[b - 1], k)
    ensures inA || inC <==> InFirstBuckets(m, b, k)
  {
    if inC {
      InBucketHas(m.buckets[b - 1], b - 1, |m.buckets|, k);
    }
  }

  lemma {:induction false} EntriesUpToDistinct(m: MapVal, b: nat)
    requires b <= |m.buckets| && ChainsValid(m)
    ensures Distinct(EntryKeys(EntriesUpTo(m, b)))
  {
    if b > 0 {
      EntriesUpToDistinct(m, b - 1);
      var last := m.buckets[b - 1];
      ChainEntriesKeys(last);
      EntryKeysAppend(EntriesUpTo(m, b - 1), ChainEntries(last));
      var a, c := EntryKeys(EntriesUpTo(m, b - 1)), EntryKeys(ChainEntries(last));
      LastBucketApart(m, b, a, c);
      DistinctAppend(a, c);
    }
  }

  /** No key of bucket `b - 1` is among the keys of the buckets before it. */
  lemma LastBucketApart(m: MapVal, b: nat, a: seq<string>, c: seq<string>)
    requires 0 < b <= |m.buckets| && ChainsValid(m)
    requires a == EntryKeys(EntriesUpTo(m, b - 1)) && c == EntryKeys(ChainEntries(m.buckets[b - 1]))
    ensures forall k :: k in c ==> k !in a
  {
    var last := m.buckets[b - 1];
    EntriesUpToKeys(m, b - 1);
    ChainEntriesKeys(last);
    forall k | k in c
      ensures k !in a
    {
      InBucketHas(last, b - 1, |m.buckets|, k);
      assert !InFirstBuckets(m, b - 1, k);
    }
  }

  /**
    The keys of a valid map are distinct, there are `size` of them, and they
    are exactly the keys `cson_map_get` finds.
  */
  lemma KeysSpec(m: MapVal)
    requires ValidMap(m)
    ensures |Keys(m)| == m.size
    ensures Distinct(Keys(m))
    ensures forall k :: k in Keys(m) <==> MapGet(m, k).Some?
  {
    EntriesUpToCount(m, |m.buckets|);
    EntriesUpToKeys(m, |m.buckets|);
    EntriesUpToDistinct(m, |m.buckets|);
    assert m.buckets[..|m.buckets|] == m.buckets;
  }

  /* ---------- Rebuilding a map from its entries ---------- */

  /** Inserting the entries one after another, as the parser does. */
  function InsertAll(m: MapVal, es: seq<(string, Value)>): MapVal
    decreases es
  {
    if es == [] then m else InsertAll(MapInsert(m, es[0].0, es[0].1), es[1..])
  }

  lemma {:induction false} InsertAllAppend(m: MapVal, xs: seq<(string, Value)>, ys: seq<(string, Value)>)
    ensures InsertAll(m, xs + ys) == InsertAll(InsertAll(m, xs), ys)
    decreases xs
  {
    if xs != [] {
      assert (xs + ys)[1..] == xs[1..] + ys;
      InsertAllAppend(MapInsert(m, xs[0].0, xs[0].1), xs[1..], ys);
    } else {
      assert xs + ys == ys;
    }
  }

  /** Chain `p` with chain `c` linked after its last node. */
  function ChainConcat(p: Chain, c: Chain): (r: Chain)
    ensures ChainLength(r) == ChainLength(p) + ChainLength(c)
    ensures forall k :: ChainHas(r, k) <==> ChainHas(p, k) || ChainHas(c, k)
  {
    if p.Nil? then c else Node(p.key, p.value, ChainConcat(p.next, c))
  }

  lemma {:induction false} ConcatParts(p: Chain, c: Chain, b: nat, capacity: nat)
    requires ChainUnique(ChainConcat(p, c)) && ChainInBucket(ChainConcat(p, c), b, capacity)
    ensures ChainUnique(c) && ChainInBucket(c, b, capacity)
    ensures c.Node? ==> !ChainHas(p, c.key)
  {
    if p.Node? {
      ConcatParts(p.next, c, b, capacity);
    }
  }

  lemma {:induction false} ConcatNil(p: Chain)
    ensures ChainConcat(p, Nil) == p
  {
    if p.Node? {
      ConcatNil(p.next);
    }
  }

  lemma {:induction false} ConcatAssoc(p: Chain, q: Chain, c: Chain)
    ensures ChainConcat(ChainConcat(p, q), c) == ChainConcat(p, ChainConcat(q, c))
  {
    if p.Node? {
      ConcatAssoc(p.next, q, c);
    }
  }

  lemma {:induction false} UpsertNewIsConcat(p: Chain, key: string, v: Value)
    requires !ChainHas(p, key)
    ensures ChainUpsert(p, key, v) == ChainConcat(p, Node(key, v, Nil))
  {
    if p.Node? {
      UpsertNewIsConcat(p.next, key, v);
    }
  }

  /**
    Inserting the entries of `c` into a map whose bucket `b` holds `p` links
    them, in order, after `p`, when `p` followed by `c` is a valid chain of
    bucket `b`.
  */
  lemma {:induction false} InsertChain(acc: MapVal, b: nat, p: Chain, c: Chain)
    requires |acc.buckets| == MapCapacity && b < MapCapacity && acc.buckets[b] == p
    requires ChainUnique(ChainConcat(p, c)) && ChainInBucket(ChainConcat(p, c), b, MapCapacity)
    ensures InsertAll(acc, ChainEntries(c)) ==
      MapVal(acc.buckets[b := ChainConcat(p, c)], acc.size + ChainLength(c))
    decreases c
  {
    if c.Nil? {
      ConcatNil(p);
      assert acc.buckets[b := p] == acc.buckets;
    } else {
      ConcatParts(p, c, b, MapCapacity);
      assert ChainInBucket(c, b, MapCapacity);
      var p' := ChainConcat(p, Node(c.key, c.value, Nil));
      UpsertNewIsConcat(p, c.key, c.value);
      var acc' := MapInsert(acc, c.key, c.value);
      assert acc' == MapVal(acc.buckets[b := p'], acc.size + 1);
      ConcatAssoc(p, Node(c.key, c.value, Nil), c.next);
      assert ChainEntries(c)[1..] == ChainEntries(c.next);
      InsertChain(acc', b, p', c.next);
      assert acc.buckets[b := p'][b := ChainConcat(p', c.next)] == acc.buckets[b := ChainConcat(p, c)];
    }
  }

  /** The first `b` buckets of `m`, the rest empty. */
  function Partial(m: MapVal, b: nat): MapVal
    requires b <= |m.buckets|
  {
    MapVal(seq(|m.buckets|, i requires 0 <= i < |m.buckets| => if i < b then m.buckets[i] else Nil),
           Count(m.buckets[..b]))
  }

  lemma {:induction false} InsertEntriesUpTo(m: MapVal, b: nat)
    requires ValidMap(m) && b <= |m.buckets|
    ensures InsertAll(EmptyMap(), EntriesUpTo(m, b)) == Partial(m, b)
  {
    if b == 0 {
      assert Partial(m, 0).buckets == EmptyMap().buckets;
    } else {
      InsertEntriesUpTo(m, b - 1);
      InsertAllAppend(EmptyMap(), EntriesUpTo(m, b - 1), ChainEntries(m.buckets[b - 1]));
      var acc := Partial(m, b - 1);
      InsertChain(acc, b - 1, Nil, m.buckets[b - 1]);
      PartialStep(m, b);
    }
  }

  /** Bucket `b - 1` joins the partial map of the buckets before it. */
  lemma PartialStep(m: MapVal, b: nat)
    requires 0 < b <= |m.buckets|
    ensures Partial(m, b) ==
      MapVal(Partial(m, b - 1).buckets[b - 1 := m.buckets[b - 1]], Partial(m, b - 1).size + ChainLength(m.buckets[b - 1]))
  {
    assert m.buckets[..b][..b - 1] == m.buckets[..b - 1];
    assert Partial(m, b - 1).buckets[b - 1 := m.buckets[b - 1]] == Partial(m, b).buckets;
  }

  /**
    Inserting the entries of a valid map, in visiting order, into a fresh map
    gives back the same chains and the same size.
  */
  lemma RebuildFromEntries(m: MapVal)
    requires ValidMap(m)
    ensures InsertAll(EmptyMap(), Entries(m)) == m
  {
    InsertEntriesUpTo(m, |m.buckets|);
    assert m.buckets[..|m.buckets|] == m.buckets;
    assert Partial(m, |m.buckets|).buckets == m.buckets;
  }

  /* ---------- Operations on a value (`Cson*`) ---------- */

  /** `cson_len`: the size of an array or a map, 0 (with an error) otherwise. */
  function Len(v: Value): nat
  {
    match v
    case Arr(items) => |items|
    case Obj(m) => m.size
    case _ => 0
  }

  /**
    The length `cson_len` reports is the number of elements: the items of an
    array, the distinct keys of a well-formed map; every other kind has none.
  */
  lemma LenCounts(v: Value)
    requires v.Obj? ==> ValidMap(v.m)
    ensures v.Arr? ==> Len(v) == |v.items|
    ensures v.Obj? ==> Len(v) == |Keys(v.m)| && Distinct(Keys(v.m))
    ensures !v.Arr? && !v.Obj? ==> Len(v) == 0
  {
    if v.Obj? {
      KeysSpec(v.m);
    }
  }

  /** `cson_map_get` on a value: NULL unless it is a map holding `key`. */
  function Lookup(v: Value, key: string): Option<Value>
  {
    if v.Obj? then MapGet(v.m, key) else None
  }

  /** `cson_array_get` on a value: NULL unless it is an array and `index < size`. */
  function ItemAt(v: Value, index: nat): Option<Value>
  {
    if v.Arr? && index < |v.items| then Some(v.items[index]) else None
  }

  /** `cson_map_remove` on a value; a non-map is InvalidType and stays as it is. */
  function RemoveKey(v: Value, key: string): (r: (Value, CsonError))
  {
    if !v.Obj? then (v, InvalidType)
    else match MapRemove(v.m, key)
      case Removed(m') => (Obj(m'), Success)
      case RemoveFailed(e) => (v, e)
  }

  /** `cson_get_int`: the payload of an Int, 0 for anything else. */
  function IntOf(v: Option<Value>): int
  {
    if v.Some? && v.value.Int? then v.value.i as int else 0
  }

  /* ---------- Path lookup (`cson__get`) ---------- */

  /** One `CsonArg`: a key step or an index step. */
  datatype Step = Key(key: string) | Index(index: nat)

  /** The value reached, or the error `cson__get` logs before returning NULL. */
  datatype Reached = Found(value: Value) | Failed(err: CsonError)

  /** The path walk as a recursive definition. */
  function Walk(v: Value, steps: seq<Step>): Reached
  {
    if steps == [] then Found(v)
    else match steps[0]
      case Key(k) =>
        if !v.Obj? then Failed(InvalidType)
        else if MapGet(v.m, k).None? then Failed(KeyError)
        else
          MapGetSmaller(v.m, k);
          Walk(MapGet(v.m, k).value, steps[1..])
      case Index(i) =>
        if !v.Arr? then Failed(InvalidType)
        else if i >= |v.items| then Failed(IndexError)
        else Walk(v.items[i], steps[1..])
  }

  /**
    Following a path in two parts is following the first part, then the
    second from where the first ended; a failure in the first part is final.
  */
  lemma {:induction false} WalkAppend(v: Value, s1: seq<Step>, s2: seq<Step>)
    ensures Walk(v, s1 + s2) == if Walk(v, s1).Found? then Walk(Walk(v, s1).value, s2) else Walk(v, s1)
    decreases s1
  {
    if s1 == [] {
      assert s1 + s2 == s2;
    } else {
      assert (s1 + s2)[0] == s1[0] && (s1 + s2)[1..] == s1[1..] + s2;
      match s1[0]
      case Key(k) =>
        if v.Obj? && MapGet(v.m, k).Some? {
          WalkAppend(MapGet(v.m, k).value, s1[1..], s2);
        }
      case Index(i) =>
        if v.Arr? && i < |v.items| {
          WalkAppend(v.items[i], s1[1..], s2);
        }
    }
  }

  /** `cson__get`: the loop over the steps; NULL for a NULL root. */
  method GetPath(root: Option<Value>, steps: seq<Step>) returns (r: Option<Value>)
    ensures root.None? ==> r.None?
    ensures root.Some? ==> (r.Some? <==> Walk(root.value, steps).Found?)
    ensures root.Some? && r.Some? ==> r.value == Walk(root.value, steps).value
  {
    if root.None? {
      return None;
    }
    var next := root.value;
    var i := 0;
    while i < |steps|
      invariant 0 <= i <= |steps|
      invariant Walk(root.value, steps) == Walk(next, steps[i..])
    {
      assert steps[i..][1..] == steps[i + 1..];
      match steps[i] {
        case Key(k) =>
          if next.Obj? {
            var found := MapGet(next.m, k);
            if found.None? {
              return None;
            }
            next := found.value;
          } else {
            return None;
          }
        case Index(j) =>
          if next.Arr? {
            if j >= |next.items| {
              return None;
            }
            next := next.items[j];
          } else {
            return None;
          }
      }
      i := i + 1;
    }
    return Some(next);
  }
}
