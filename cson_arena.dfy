/**
  The bump allocator behind every cson value: an arena is a list of regions,
  each an array of `capacity` machine words of which the first `size` are in
  use. Allocation takes whole words from the end of the last region.

  A region is a value holding its counters and its bytes; the list of
  regions stands for the `first`/`last`/`next` links.
*/
module CsonArena {
  import opened CsonValue

  /** `sizeof(uintptr_t)`: the word size of the 64-bit targets the program is built for. */
  const WordSize: nat := 8

  newtype byte = x: int | 0 <= x < 256

  datatype Region = Region(size: nat, capacity: nat, data: seq<byte>)

  /** The address `&region->data[word]`. */
  datatype Ptr = Ptr(region: nat, word: nat)

  /** The outcome of an allocation: the new region list and the block, or exit(1). */
  datatype Placement = Placed(regions: seq<Region>, at: Ptr) | Exited

  /** Every region holds `capacity` words of data and uses at most all of them. */
  predicate WellFormed(rs: seq<Region>)
  {
    forall r :: 0 <= r < |rs| ==>
      rs[r].size <= rs[r].capacity && |rs[r].data| == rs[r].capacity * WordSize
  }

  /** The number of words a request of `size` bytes takes: rounded up. */
  function Words(size: nat): (w: nat)
    ensures size <= w * WordSize < size + WordSize
  {
    (size + WordSize - 1) / WordSize
  }

  /** The capacity of a new region when the request itself is smaller. */
  function DefaultCapacity(regionSize: nat): nat
  {
    if regionSize != 0 then regionSize else RegionCapacity
  }

  /**
    `cson__new_region`, sized as `cson_alloc` asks: room for the request or
    the default capacity, whichever is larger; `calloc` zeroes it.
  */
  function NewRegion(words: nat, regionSize: nat): (r: Region)
    ensures r.size == 0 && r.capacity >= words && r.capacity >= DefaultCapacity(regionSize)
    ensures r.capacity == words || r.capacity == DefaultCapacity(regionSize)
    ensures |r.data| == r.capacity * WordSize
    ensures forall i :: 0 <= i < |r.data| ==> r.data[i] == 0
  {
    var capacity := OpenedCapacity(words, regionSize);
    Region(0, capacity, seq(capacity * WordSize, _ => 0))
  }

  /** Hand out the first free word of the last region and count `words` more in use. */
  function Bump(rs: seq<Region>, words: nat): Placement
    requires rs != []
  {
    var last := |rs| - 1;
    Placed(rs[last := rs[last].(size := rs[last].size + words)], Ptr(last, rs[last].size))
  }

  /** The region list with a first region made for the request when there is none. */
  function WithFirstRegion(rs: seq<Region>, words: nat, regionSize: nat): (r: seq<Region>)
    ensures r != []
  {
    if rs == [] then [NewRegion(words, regionSize)] else rs
  }

  /**
    `cson_alloc` as written: when the last region has no room for the
    request, the assertion that `arena->last` is NULL fails (it never is),
    and the process exits.
  */
  function AllocAsWritten(rs: seq<Region>, regionSize: nat, size: nat): Placement
  {
    var words := Words(size);
    var rs1 := WithFirstRegion(rs, words, regionSize);
    var last := rs1[|rs1| - 1];
    if last.size + words > last.capacity then Exited else Bump(rs1, words)
  }

  /**
    `cson_alloc` as evidently intended: when the last region has no room, a
    new region is linked after it and the block is taken from there.
  */
  function Allocate(rs: seq<Region>, regionSize: nat, size: nat): Placement
  {
    var words := Words(size);
    var rs1 := WithFirstRegion(rs, words, regionSize);
    var last := rs1[|rs1| - 1];
    var rs2 := if last.size + words > last.capacity then rs1 + [NewRegion(words, regionSize)] else rs1;
    Bump(rs2, words)
  }

  /** The capacity `cson_alloc` gives a region it opens for a request of `words` words. */
  function OpenedCapacity(words: nat, regionSize: nat): nat
  {
    if words > DefaultCapacity(regionSize) then words else DefaultCapacity(regionSize)
  }

  /**
    The intended allocation always succeeds and keeps every region within
    its capacity. It opens a region exactly when there is none or the last
    one lacks room; a region it opens is zeroed, with room for the request
    or the default capacity, whichever is larger. The block starts at the
    first free word of the last region, whose size grows by the rounded-up
    request, so the block overlaps nothing in use before; no byte and no
    other region's counters change.
  */
  lemma AllocSpec(rs: seq<Region>, regionSize: nat, size: nat)
    requires WellFormed(rs)
    ensures Allocate(rs, regionSize, size).Placed?
    ensures var p := Allocate(rs, regionSize, size);
      && WellFormed(p.regions)
      && |rs| <= |p.regions| <= |rs| + 1
      && (|p.regions| == |rs| + 1 <==>
            rs == [] || rs[|rs| - 1].size + Words(size) > rs[|rs| - 1].capacity)
      && p.at.region == |p.regions| - 1
      && p.at.word == (if |p.regions| == |rs| then rs[|rs| - 1].size else 0)
      && p.regions[p.at.region].size == p.at.word + Words(size)
      && (|p.regions| == |rs| + 1 ==>
            && p.regions[|rs|].capacity == OpenedCapacity(Words(size), regionSize)
            && (forall i :: 0 <= i < |p.regions[|rs|].data| ==> p.regions[|rs|].data[i] == 0))
      && (forall r :: 0 <= r < |rs| ==> p.regions[r].data == rs[r].data)
      && (forall r :: 0 <= r < |rs| && r != p.at.region ==> p.regions[r] == rs[r])
  {
  }

  /**
    The allocation as written exits exactly when an existing last region
    lacks room; otherwise it does what the intended one does.
  */
  lemma AllocAsWrittenSpec(rs: seq<Region>, regionSize: nat, size: nat)
    ensures AllocAsWritten(rs, regionSize, size).Exited? <==>
      rs != [] && rs[|rs| - 1].size + Words(size) > rs[|rs| - 1].capacity
    ensures AllocAsWritten(rs, regionSize, size).Placed? ==>
      AllocAsWritten(rs, regionSize, size) == Allocate(rs, regionSize, size)
  {
    if rs == [] {
      assert NewRegion(Words(size), regionSize).capacity >= Words(size);
    }
  }

  /**
    Once the first region of a default arena is full, a one-byte request
    makes the program exit, where a second region would have served it.
  */
  lemma FullRegionExits()
    ensures var full := [Region(RegionCapacity, RegionCapacity, seq(RegionCapacity * WordSize, _ => 0))];
      && AllocAsWritten(full, 0, 1) == Exited
      && Allocate(full, 0, 1).Placed? && Allocate(full, 0, 1).at == Ptr(1, 0)
  {
    assert Words(1) == 1;
  }

  /* ---------- Bytes in the arena ---------- */

  /** The `n` bytes at `p` lie inside their region's data. */
  predicate InData(rs: seq<Region>, p: Ptr, n: nat)
  {
    p.region < |rs| && p.word * WordSize + n <= |rs[p.region].data|
  }

  /** The `n` bytes at `p` lie inside the words in use of their region. */
  predicate InUse(rs: seq<Region>, p: Ptr, n: nat)
  {
    p.region < |rs| && p.word * WordSize + n <= rs[p.region].size * WordSize
  }

  /**
    The block an allocation hands out lies inside its region's data and
    overlaps no range that was in use before.
  */
  lemma AllocFresh(rs: seq<Region>, regionSize: nat, size: nat, q: Ptr, n: nat)
    requires WellFormed(rs) && InUse(rs, q, n)
    ensures var p := Allocate(rs, regionSize, size);
      && InData(p.regions, p.at, size)
      && (q.region != p.at.region || q.word * WordSize + n <= p.at.word * WordSize)
  {
    AllocSpec(rs, regionSize, size);
  }

  function Read(rs: seq<Region>, p: Ptr, n: nat): (r: seq<byte>)
    requires InData(rs, p, n)
    ensures |r| == n
  {
    var o := p.word * WordSize;
    rs[p.region].data[o..o + n]
  }

  /** The regions after `bytes` are stored from `p` on. */
  function Write(rs: seq<Region>, p: Ptr, bytes: seq<byte>): (r: seq<Region>)
    requires InData(rs, p, |bytes|)
    ensures |r| == |rs|
    ensures forall i :: 0 <= i < |rs| ==>
      r[i].size == rs[i].size && r[i].capacity == rs[i].capacity && |r[i].data| == |rs[i].data|
  {
    var o := p.word * WordSize;
    var d := rs[p.region].data;
    rs[p.region := rs[p.region].(data := d[..o] + bytes + d[o + |bytes|..])]
  }

  /** What was written at `p` reads back from `p`. */
  lemma WriteRead(rs: seq<Region>, p: Ptr, bytes: seq<byte>)
    requires InData(rs, p, |bytes|)
    ensures Read(Write(rs, p, bytes), p, |bytes|) == bytes
  {
    var o := p.word * WordSize;
    var d := rs[p.region].data;
    assert (d[..o] + bytes + d[o + |bytes|..])[o..o + |bytes|] == bytes;
  }

  /** A write leaves every byte outside the written range as it was. */
  lemma WriteFrame(rs: seq<Region>, p: Ptr, bytes: seq<byte>, q: Ptr, n: nat)
    requires InData(rs, p, |bytes|) && InData(rs, q, n)
    requires q.region != p.region
      || q.word * WordSize + n <= p.word * WordSize
      || p.word * WordSize + |bytes| <= q.word * WordSize
    ensures Read(Write(rs, p, bytes), q, n) == Read(rs, q, n)
  {
    if q.region == p.region {
      var o, oq := p.word * WordSize, q.word * WordSize;
      var d := rs[p.region].data;
      var d' := d[..o] + bytes + d[o + |bytes|..];
      forall j | oq <= j < oq + n
        ensures d'[j] == d[j]
      {
        if j < o {
          assert d'[j] == d[..o][j];
        } else {
          assert d'[j] == d[o + |bytes|..][j - o - |bytes|];
        }
      }
      assert d'[oq..oq + n] == d[oq..oq + n];
    }
  }

  /** Writing no bytes changes nothing. */
  lemma WriteNothing(rs: seq<Region>, p: Ptr)
    requires InData(rs, p, 0)
    ensures Write(rs, p, []) == rs
  {
    var d := rs[p.region].data;
    assert d[..p.word * WordSize] + [] + d[p.word * WordSize..] == d;
  }

  /** Writing one more byte after a written prefix extends the prefix. */
  lemma WriteExtend(rs: seq<Region>, p: Ptr, bytes: seq<byte>, b: byte)
    requires InData(rs, p, |bytes| + 1)
    ensures var w := Write(rs, p, bytes);
      var d := w[p.region].data;
      Write(rs, p, bytes + [b]) == w[p.region := w[p.region].(data := d[p.word * WordSize + |bytes| := b])]
  {
    var o := p.word * WordSize;
    var d := rs[p.region].data;
    var w := Write(rs, p, bytes);
    var d1 := w[p.region].data;
    assert d1[o + |bytes| := b] == d[..o] + (bytes + [b]) + d[o + |bytes| + 1..];
  }

  /**
    One pass of the copy loop of `cson_realloc`: with the first `i` bytes of
    `src` already written at `p`, the source byte `i` is still in place, and
    writing it after them writes the first `i + 1` bytes.
  */
  lemma CopyStep(rs: seq<Region>, p: Ptr, src: seq<byte>, from: Ptr, i: nat)
    requires InData(rs, p, |src|) && InData(rs, from, |src|) && i < |src|
    requires from.region != p.region
      || from.word * WordSize + |src| <= p.word * WordSize
      || p.word * WordSize + |src| <= from.word * WordSize
    requires Read(rs, from, |src|) == src
    ensures var w := Write(rs, p, src[..i]);
      var d := w[p.region].data;
      && w[from.region].data[from.word * WordSize + i] == src[i]
      && Write(rs, p, src[..i + 1]) == w[p.region := w[p.region].(data := d[p.word * WordSize + i := src[i]])]
  {
    WriteFrame(rs, p, src[..i], from, |src|);
    FillStep(rs, p, src, i);
  }

  /** Writing byte `i` of `bytes` after the first `i` writes the first `i + 1`. */
  lemma FillStep(rs: seq<Region>, p: Ptr, bytes: seq<byte>, i: nat)
    requires InData(rs, p, |bytes|) && i < |bytes|
    ensures var w := Write(rs, p, bytes[..i]);
      var d := w[p.region].data;
      Write(rs, p, bytes[..i + 1]) == w[p.region := w[p.region].(data := d[p.word * WordSize + i := bytes[i]])]
  {
    WriteExtend(rs, p, bytes[..i], bytes[i]);
    assert bytes[..i] + [bytes[i]] == bytes[..i + 1];
  }

  /**
    The bytes `cson_dup` stores: the first `oldSize` bytes of the source, then
    zeros up to `newSize` (or just the first `newSize` bytes of the source).
  */
  function DupBytes(src: seq<byte>, oldSize: nat, newSize: nat): (r: seq<byte>)
    requires |src| >= oldSize || |src| >= newSize
    ensures |r| == newSize
  {
    if newSize <= oldSize then src[..newSize]
    else src[..oldSize] + seq(newSize - oldSize, _ => 0)
  }

  /**
    A copy made one byte longer than its source, as the string functions
    ask for, is the source followed by a terminating NUL.
  */
  lemma DupTerminates(src: seq<byte>, len: nat)
    requires |src| >= len
    ensures DupBytes(src, len, len + 1) == src[..len] + [0]
  {
  }

  /* ---------- The arena ---------- */

  /** The outcome of a call that may end the process. */
  datatype Outcome = Block(at: Ptr) | Exit

  /** A `CsonArena`: its regions, first to last, and the default region size (0: `RegionCapacity`). */
  class Arena {
    var regions: seq<Region>
    const regionSize: nat

    /** An arena that has not allocated yet. */
    constructor (regionSize: nat)
      ensures regions == [] && this.regionSize == regionSize
    {
      regions := [];
      this.regionSize := regionSize;
    }

    /** `cson_alloc` as written: see AllocAsWritten. */
    method AllocChecked(size: nat) returns (r: Outcome)
      requires WellFormed(regions)
      modifies this
      ensures WellFormed(regions)
      ensures r.Exit? ==> AllocAsWritten(old(regions), regionSize, size) == Exited
      ensures r.Block? ==> AllocAsWritten(old(regions), regionSize, size) == Placed(regions, r.at)
    {
      var words := (size + WordSize - 1) / WordSize;
      var default := if regionSize != 0 then regionSize else RegionCapacity;
      if regions == [] {
        var capacity := if words > default then words else default;
        regions := [Region(0, capacity, seq(capacity * WordSize, _ => 0))];
      }
      var last := regions[|regions| - 1];
      if last.size + words > last.capacity {
        return Exit;
      }
      r := Block(Ptr(|regions| - 1, last.size));
      regions := regions[|regions| - 1 := last.(size := last.size + words)];
    }

    /** `cson_alloc` as evidently intended: see Allocate. */
    method AllocBlock(size: nat) returns (p: Ptr)
      requires WellFormed(regions)
      modifies this
      ensures WellFormed(regions)
      ensures Allocate(old(regions), regionSize, size) == Placed(regions, p)
    {
      AllocSpec(regions, regionSize, size);
      var words := (size + WordSize - 1) / WordSize;
      var default := if regionSize != 0 then regionSize else RegionCapacity;
      if regions == [] {
        var capacity := if words > default then words else default;
        regions := [Region(0, capacity, seq(capacity * WordSize, _ => 0))];
      }
      var last := regions[|regions| - 1];
      if last.size + words > last.capacity {
        var capacity := if words > default then words else default;
        regions := regions + [Region(0, capacity, seq(capacity * WordSize, _ => 0))];
        last := regions[|regions| - 1];
      }
      p := Ptr(|regions| - 1, last.size);
      regions := regions[|regions| - 1 := last.(size := last.size + words)];
    }

    /**
      The copy loop of `cson_realloc`: the `n` bytes at `from` are copied
      one by one to the block at `p`, which they do not overlap.
    */
    method CopyBytes(p: Ptr, from: Ptr, n: nat)
      requires WellFormed(regions) && InData(regions, p, n) && InData(regions, from, n)
      requires from.region != p.region
        || from.word * WordSize + n <= p.word * WordSize
        || p.word * WordSize + n <= from.word * WordSize
      modifies this
      ensures WellFormed(regions)
      ensures regions == Write(old(regions), p, Read(old(regions), from, n))
    {
      ghost var src := Read(regions, from, n);
      ghost var start := regions;
      WriteNothing(start, p);
      var i := 0;
      while i < n
        invariant 0 <= i <= n
        invariant WellFormed(regions)
        invariant regions == Write(start, p, src[..i])
      {
        CopyStep(start, p, src, from, i);
        var b := regions[from.region].data[from.word * WordSize + i];
        var d := regions[p.region].data;
        regions := regions[p.region := regions[p.region].(data := d[p.word * WordSize + i := b])];
        i := i + 1;
      }
      assert src[..i] == src;
    }

    /**
      The copy loop of `cson_dup`: the block at `p` receives the first
      `oldSize` bytes of `src`, then zeros up to `newSize`.
    */
    method FillBytes(p: Ptr, src: seq<byte>, oldSize: nat, newSize: nat)
      requires WellFormed(regions) && InData(regions, p, newSize)
      requires |src| >= oldSize || |src| >= newSize
      modifies this
      ensures WellFormed(regions)
      ensures regions == Write(old(regions), p, DupBytes(src, oldSize, newSize))
    {
      ghost var start := regions;
      ghost var bytes := DupBytes(src, oldSize, newSize);
      WriteNothing(start, p);
      var i := 0;
      while i < newSize
        invariant 0 <= i <= newSize
        invariant WellFormed(regions)
        invariant regions == Write(start, p, bytes[..i])
      {
        var b: byte := if i < oldSize then src[i] else 0;
        assert b == bytes[i];
        FillStep(start, p, bytes, i);
        var d := regions[p.region].data;
        regions := regions[p.region := regions[p.region].(data := d[p.word * WordSize + i := b])];
        i := i + 1;
      }
      assert bytes[..i] == bytes;
    }

    /**
      `cson_realloc` over the intended allocator: a request no larger than
      the old size keeps the old block; otherwise a new block is allocated
      and the `oldSize` old bytes are copied into it.
    */
    method Realloc(from: Ptr, oldSize: nat, newSize: nat) returns (p: Ptr)
      requires WellFormed(regions) && InUse(regions, from, oldSize)
      modifies this
      ensures WellFormed(regions)
      ensures oldSize >= newSize ==> p == from && regions == old(regions)
      ensures oldSize < newSize ==>
        var placed := Allocate(old(regions), regionSize, newSize);
        && p == placed.at
        && regions == Write(placed.regions, p, Read(old(regions), from, oldSize))
    {
      if oldSize >= newSize {
        return from;
      }
      ghost var before := regions;
      AllocFresh(regions, regionSize, newSize, from, oldSize);
      p := AllocBlock(newSize);
      assert Read(regions, from, oldSize) == Read(before, from, oldSize);
      CopyBytes(p, from, oldSize);
    }

    /**
      `cson_realloc` as written: the allocation it makes is `cson_alloc`'s,
      so it exits where that does and otherwise copies as Realloc does.
    */
    method ReallocChecked(from: Ptr, oldSize: nat, newSize: nat) returns (r: Outcome)
      requires WellFormed(regions) && InUse(regions, from, oldSize)
      modifies this
      ensures WellFormed(regions)
      ensures oldSize >= newSize ==> r == Block(from) && regions == old(regions)
      ensures oldSize < newSize ==>
        var placed := AllocAsWritten(old(regions), regionSize, newSize);
        && (r.Exit? <==> placed.Exited?)
        && (r.Block? ==>
              r.at == placed.at && regions == Write(placed.regions, r.at, Read(old(regions), from, oldSize)))
    {
      if oldSize >= newSize {
        return Block(from);
      }
      ghost var before := regions;
      AllocAsWrittenSpec(regions, regionSize, newSize);
      AllocFresh(regions, regionSize, newSize, from, oldSize);
      r := AllocChecked(newSize);
      if r.Exit? {
        return;
      }
      assert Read(regions, from, oldSize) == Read(before, from, oldSize);
      CopyBytes(r.at, from, oldSize);
    }

    /**
      `cson_dup` over the intended allocator: a new block of `newSize` bytes
      holding the first bytes of `src`, zero-padded when `src` is shorter.
    */
    method Dup(src: seq<byte>, oldSize: nat, newSize: nat) returns (p: Ptr)
      requires WellFormed(regions) && (|src| >= oldSize || |src| >= newSize)
      modifies this
      ensures WellFormed(regions)
      ensures var placed := Allocate(old(regions), regionSize, newSize);
        p == placed.at && regions == Write(placed.regions, p, DupBytes(src, oldSize, newSize))
    {
      AllocSpec(regions, regionSize, newSize);
      p := AllocBlock(newSize);
      FillBytes(p, src, oldSize, newSize);
    }

    /**
      `cson_dup` as written: it exits where `cson_alloc` does and otherwise
      fills the new block as Dup does.
    */
    method DupChecked(src: seq<byte>, oldSize: nat, newSize: nat) returns (r: Outcome)
      requires WellFormed(regions) && (|src| >= oldSize || |src| >= newSize)
      modifies this
      ensures WellFormed(regions)
      ensures var placed := AllocAsWritten(old(regions), regionSize, newSize);
        && (r.Exit? <==> placed.Exited?)
        && (r.Block? ==> r.at == placed.at && regions == Write(placed.regions, r.at, DupBytes(src, oldSize, newSize)))
    {
      AllocAsWrittenSpec(regions, regionSize, newSize);
      AllocSpec(regions, regionSize, newSize);
      r := AllocChecked(newSize);
      if r.Exit? {
        return;
      }
      FillBytes(r.at, src, oldSize, newSize);
    }
  }

  /**
    Once the first region is full, duplicating a three-character string (a
    four-byte copy with its NUL, as the string constructors make) exits as
    written, where the intended allocator opens a second region.
  */
  method DupAfterFullRegion() returns (written: Outcome, intended: Ptr)
    ensures written == Exit && intended == Ptr(1, 0)
  {
    var a := new Arena(0);
    a.regions := [Region(RegionCapacity, RegionCapacity, seq(RegionCapacity * WordSize, _ => 0))];
    var b := new Arena(0);
    b.regions := a.regions;
    written := a.DupChecked([97, 98, 99], 3, 4);
    intended := b.Dup([97, 98, 99], 3, 4);
  }
}
