/**
  The cson writer: `cson_fprint` and its helpers for arrays and maps. The
  output stream is a string the writer appends to.
*/
module CsonWriter {
  import opened CsonValue

  /** `SIZE_MAX` of the 64-bit targets: where a decremented `size_t` zero wraps to. */
  const SizeMax: nat := 0xFFFF_FFFF_FFFF_FFFF

  /** `--size` on a `size_t`. */
  function Decrement(n: nat): nat
  {
    if n == 0 then SizeMax else n - 1
  }

  /**
    `cson_print_indent`: `level * CSON_PRINT_INDENT` spaces. The width 4 is
    written as a literal so that lengths stay linear; `IndentWidth` ties it
    to `PrintIndent`.
  */
  function Indent(level: nat): (r: string)
    ensures |r| == 4 * level
    ensures forall i :: 0 <= i < |r| ==> r[i] == ' '
  {
    seq(4 * level, _ => ' ')
  }

  lemma IndentWidth(level: nat)
    ensures |Indent(level)| == level * PrintIndent
  {
  }

  function DigitChar(d: nat): char
    requires d < 10
  {
    ('0' as int + d) as char
  }

  /** The decimal digits of `n`, most significant first, without leading zeros. */
  function Digits(n: nat): (r: string)
    ensures 0 < |r| && forall i :: 0 <= i < |r| ==> '0' <= r[i] <= '9'
    ensures |r| > 1 ==> r[0] != '0'
  {
    if n < 10 then [DigitChar(n)] else Digits(n / 10) + [DigitChar(n % 10)]
  }

  /** An integer printed in decimal, with a minus sign when negative. */
  function IntText(x: int): (r: string)
  {
    if x < 0 then "-" + Digits(-x) else Digits(x)
  }

  /** The separator after an item: a comma unless it is the last one. */
  function Separator(last: bool): char
  {
    if last then ' ' else ','
  }

  /**
    `cson_fprint` of a value at nesting level `indent`. Arrays and maps
    open a line per item, indented one level deeper, and close on a line of
    their own at `indent`.
  */
  function Render(v: Value, indent: nat): string
    decreases v, 2
  {
    match v
    case Int(i) => IntText(i as int)
    case Float(text) => text
    case Bool(b) => if b then "true" else "false"
    case Str(s) => "\"" + CString(s) + "\""
    case Null => "null"
    case Arr(items) => "[\n" + RenderItems(v, indent, 0) + Indent(indent) + "]"
    case Obj(m) => "{\n" + RenderEntries(v, indent, 0, m.size) + Indent(indent) + "}"
  }

  /** The lines of `cson_array_fprint` for items `i ..` of the array `v`. */
  function RenderItems(v: Value, indent: nat, i: nat): string
    requires v.Arr?
    decreases v, 1, |v.items| - i
  {
    if i >= |v.items| then ""
    else
      Indent(indent + 1) + Render(v.items[i], indent + 1)
      + [Separator(i + 1 == |v.items|), '\n']
      + RenderItems(v, indent, i + 1)
  }

  /**
    The lines of `cson_map_fprint` for entries `k ..` of the map `v`, in
    bucket and chain order; `remaining` is the counter the separator is
    chosen by, decremented before each test.
  */
  function RenderEntries(v: Value, indent: nat, k: nat, remaining: nat): string
    requires v.Obj?
    decreases v, 1, |Entries(v.m)| - k
  {
    var es := Entries(v.m);
    if k >= |es| then ""
    else
      EntrySmaller(v.m, |v.m.buckets|, k);
      EntryLine(es[k].0, Render(es[k].1, indent + 1), indent, Decrement(remaining) == 0)
      + RenderEntries(v, indent, k + 1, Decrement(remaining))
  }

  /** One line of a map: the key in quotes, a colon, the rendered value, the separator. */
  function EntryLine(key: string, value: string, indent: nat, last: bool): string
  {
    Indent(indent + 1) + "\"" + CString(key) + "\": " + value + [Separator(last), '\n']
  }

  /**
    With the stored size equal to the number of entries, as in every valid
    map, the separators are commas except after the last entry.
  */
  lemma {:induction false} EntrySeparators(v: Value, indent: nat, k: nat)
    requires v.Obj? && k < |Entries(v.m)|
    ensures RenderEntries(v, indent, k, |Entries(v.m)| - k) ==
      EntryLine(Entries(v.m)[k].0, Render(Entries(v.m)[k].1, indent + 1), indent, k + 1 == |Entries(v.m)|)
      + RenderEntries(v, indent, k + 1, |Entries(v.m)| - (k + 1))
  {
  }

  /* ---------- The writer object ---------- */

  /** A `FILE *` opened for writing: everything written so far. */
  class Writer {
    var text: string

    constructor ()
      ensures text == []
    {
      text := [];
    }

    method Put(s: string)
      modifies this
      ensures text == old(text) + s
    {
      text := text + s;
    }

    /** `cson_fprint`. */
    method WriteValue(v: Value, indent: nat)
      modifies this
      ensures text == old(text) + Render(v, indent)
      decreases v, 5
    {
      match v {
        case Int(i) =>
          Put(IntText(i as int));
        case Float(t) =>
          Put(t);
        case Bool(b) =>
          Put(if b then "true" else "false");
        case Str(s) =>
          Put("\"" + CString(s) + "\"");
        case Null =>
          Put("null");
        case Arr(_) =>
          WriteArray(v, indent);
        case Obj(_) =>
          WriteMap(v, indent);
      }
    }

    /** `cson_array_fprint`. */
    method WriteArray(v: Value, indent: nat)
      requires v.Arr?
      modifies this
      ensures text == old(text) + Render(v, indent)
      decreases v, 4
    {
      RenderArray(v, indent);
      Put("[\n");
      WriteItems(v, indent);
      Put(Indent(indent) + "]");
    }

    /** The loop of `cson_array_fprint`: one line per item. */
    method WriteItems(v: Value, indent: nat)
      requires v.Arr?
      modifies this
      ensures text == old(text) + RenderItems(v, indent, 0)
      decreases v, 3
    {
      var i := 0;
      while i < |v.items|
        invariant 0 <= i <= |v.items|
        invariant old(text) + RenderItems(v, indent, 0) == text + RenderItems(v, indent, i)
      {
        WriteItem(v, indent, i);
        i := i + 1;
      }
      assert RenderItems(v, indent, i) == "";
    }

    /** One pass of the loop of `cson_array_fprint`: the line of item `i`. */
    method WriteItem(v: Value, indent: nat, i: nat)
      requires v.Arr? && i < |v.items|
      modifies this
      ensures text == old(text) + Indent(indent + 1) + Render(v.items[i], indent + 1) + [Separator(i + 1 == |v.items|), '\n']
      ensures old(text) + RenderItems(v, indent, i) == text + RenderItems(v, indent, i + 1)
      decreases v, 2
    {
      ghost var line := Indent(indent + 1) + Render(v.items[i], indent + 1) + [Separator(i + 1 == |v.items|), '\n'];
      assert RenderItems(v, indent, i) == line + RenderItems(v, indent, i + 1);
      Put(Indent(indent + 1));
      WriteValue(v.items[i], indent + 1);
      Put([Separator(i + 1 == |v.items|), '\n']);
      Shift(old(text), text, line, RenderItems(v, indent, i), RenderItems(v, indent, i + 1));
    }

    /** `cson_map_fprint`. */
    method WriteMap(v: Value, indent: nat)
      requires v.Obj?
      modifies this
      ensures text == old(text) + Render(v, indent)
      decreases v, 4
    {
      RenderMap(v, indent);
      Put("{\n");
      WriteEntries(v, indent);
      Put(Indent(indent) + "}");
    }

    /** The outer loop of `cson_map_fprint`: every bucket in order. */
    method WriteEntries(v: Value, indent: nat)
      requires v.Obj?
      modifies this
      ensures text == old(text) + RenderEntries(v, indent, 0, v.m.size)
      decreases v, 3
    {
      var m := v.m;
      var size := m.size;
      var k := 0;
      var b := 0;
      ghost var goal := old(text) + RenderEntries(v, indent, 0, m.size);
      while b < |m.buckets|
        invariant 0 <= b <= |m.buckets|
        invariant k == |EntriesUpTo(m, b)|
        invariant goal == text + RenderEntries(v, indent, k, size)
        decreases |m.buckets| - b
      {
        BucketRun(m, b);
        ghost var t := text;
        ghost var r := size;
        size := WriteChain(v, indent, m.buckets[b], k, size);
        assert t + RenderEntries(v, indent, k, r) == text + RenderEntries(v, indent, k + ChainLength(m.buckets[b]), size);
        k := k + ChainLength(m.buckets[b]);
        b := b + 1;
      }
      assert EntriesUpTo(m, b) == Entries(m);
      assert RenderEntries(v, indent, k, size) == "";
    }

    /**
      The inner loop of `cson_map_fprint`: the nodes of chain `c`, which are
      the entries from `k` on; returns the decremented counter.
    */
    method WriteChain(v: Value, indent: nat, c: Chain, k: nat, size: nat) returns (rest: nat)
      requires v.Obj? && k + ChainLength(c) <= |Entries(v.m)|
      requires Entries(v.m)[k..k + ChainLength(c)] == ChainEntries(c)
      modifies this
      ensures old(text) + RenderEntries(v, indent, k, size) == text + RenderEntries(v, indent, k + ChainLength(c), rest)
      decreases v, 2
    {
      rest := size;
      var node := c;
      var j := k;
      var end := k + ChainLength(c);
      ghost var goal := old(text) + RenderEntries(v, indent, k, size);
      while node.Node?
        invariant k <= j && j + ChainLength(node) == end
        invariant Entries(v.m)[j..end] == ChainEntries(node)
        invariant goal == text + RenderEntries(v, indent, j, rest)
        decreases node
      {
        ghost var t := text;
        ghost var r := rest;
        rest := WriteNode(v, indent, j, end, node, rest);
        assert t + RenderEntries(v, indent, j, r) == text + RenderEntries(v, indent, j + 1, rest);
        node := node.next;
        j := j + 1;
      }
    }

    /**
      One pass of the inner loop: `node` heads the entries `j .. end`; its
      line is written and the counter decremented.
    */
    method WriteNode(v: Value, indent: nat, j: nat, end: nat, node: Chain, size: nat) returns (rest: nat)
      requires v.Obj? && node.Node? && j <= end <= |Entries(v.m)|
      requires Entries(v.m)[j..end] == ChainEntries(node)
      modifies this
      ensures j < end && Entries(v.m)[j + 1..end] == ChainEntries(node.next)
      ensures rest == Decrement(size)
      ensures old(text) + RenderEntries(v, indent, j, size) == text + RenderEntries(v, indent, j + 1, rest)
      decreases v, 1
    {
      EntryAt(v.m, j, end, node);
      rest := WriteEntry(v, indent, j, node.key, node.value, size);
      RenderEntriesStep(v, indent, j, size);
      Shift(old(text), text, EntryLine(node.key, Render(node.value, indent + 1), indent, rest == 0),
        RenderEntries(v, indent, j, size), RenderEntries(v, indent, j + 1, rest));
    }

    /** One pass of the inner loop: the line of entry `j`, which is `(key, value)`. */
    method WriteEntry(v: Value, indent: nat, j: nat, key: string, value: Value, size: nat) returns (rest: nat)
      requires v.Obj? && j < |Entries(v.m)| && Entries(v.m)[j] == (key, value)
      modifies this
      ensures rest == Decrement(size)
      ensures text == old(text) + EntryLine(key, Render(value, indent + 1), indent, rest == 0)
      decreases v, 0
    {
      EntrySmaller(v.m, |v.m.buckets|, j);
      Put(Indent(indent + 1));
      Put("\"" + CString(key) + "\": ");
      WriteValue(value, indent + 1);
      rest := Decrement(size);
      Put([Separator(rest == 0), '\n']);
      EntryLineParts(old(text), key, Render(value, indent + 1), indent, rest == 0);
    }
  }

  /** `EntryLine` as the pieces `cson_map_fprint` writes one after the other. */
  lemma EntryLineParts(t: string, key: string, value: string, indent: nat, last: bool)
    ensures t + EntryLine(key, value, indent, last) ==
      t + Indent(indent + 1) + ("\"" + CString(key) + "\": ") + value + [Separator(last), '\n']
  {
  }

  /** The entries of bucket `b` follow those of the buckets before it. */
  lemma BucketRun(m: MapVal, b: nat)
    requires b < |m.buckets|
    ensures var k := |EntriesUpTo(m, b)|;
      && |EntriesUpTo(m, b + 1)| == k + ChainLength(m.buckets[b])
      && k + ChainLength(m.buckets[b]) <= |Entries(m)|
      && Entries(m)[k..k + ChainLength(m.buckets[b])] == ChainEntries(m.buckets[b])
  {
    EntriesUpToPrefix(m, b + 1, |m.buckets|);
    assert EntriesUpTo(m, b + 1) == EntriesUpTo(m, b) + ChainEntries(m.buckets[b]);
  }

  /** Entry `j` of a run of entries equal to a chain is the chain's head. */
  lemma EntryAt(m: MapVal, j: nat, end: nat, node: Chain)
    requires node.Node? && j <= end <= |Entries(m)|
    requires Entries(m)[j..end] == ChainEntries(node)
    ensures j < end && Entries(m)[j] == (node.key, node.value)
    ensures Entries(m)[j + 1..end] == ChainEntries(node.next)
  {
    assert Entries(m)[j..end][0] == ChainEntries(node)[0];
    assert Entries(m)[j + 1..end] == Entries(m)[j..end][1..];
  }

  lemma RenderEntriesStep(v: Value, indent: nat, j: nat, size: nat)
    requires v.Obj? && j < |Entries(v.m)|
    ensures RenderEntries(v, indent, j, size) ==
      EntryLine(Entries(v.m)[j].0, Render(Entries(v.m)[j].1, indent + 1), indent, Decrement(size) == 0)
      + RenderEntries(v, indent, j + 1, Decrement(size))
  {
  }

  /** Moving a written line from the pending output to the written text. */
  lemma Shift(before: string, after: string, line: string, pending: string, rest: string)
    requires after == before + line && pending == line + rest
    ensures before + pending == after + rest
  {
  }

  lemma RenderArray(v: Value, indent: nat)
    requires v.Arr?
    ensures Render(v, indent) == "[\n" + RenderItems(v, indent, 0) + (Indent(indent) + "]")
  {
  }

  lemma RenderMap(v: Value, indent: nat)
    requires v.Obj?
    ensures Render(v, indent) == "{\n" + RenderEntries(v, indent, 0, v.m.size) + (Indent(indent) + "}")
  {
  }

  /** The entries of the first `b` buckets come first among those of the first `c`. */
  lemma {:induction false} EntriesUpToPrefix(m: MapVal, b: nat, c: nat)
    requires b <= c <= |m.buckets|
    ensures |EntriesUpTo(m, b)| <= |EntriesUpTo(m, c)|
    ensures EntriesUpTo(m, c)[..|EntriesUpTo(m, b)|] == EntriesUpTo(m, b)
    decreases c - b
  {
    if b < c {
      EntriesUpToPrefix(m, b, c - 1);
      assert EntriesUpTo(m, c) == EntriesUpTo(m, c - 1) + ChainEntries(m.buckets[c - 1]);
    }
  }
}
