/**
  The writer and the parser together: what `cson_fprint` prints for an array
  or a map parses back to the same value, provided the value holds no floats
  and its strings and keys need no escaping.
*/
module CsonRoundTrip {
  import opened CsonValue
  import opened CsonLexer
  import opened CsonParser
  import opened CsonWriter

  /* ---------- Which values print faithfully ---------- */

  /**
    A string printed between quotes as it is: no quote or backslash, which
    the writer does not escape, and no NUL, which would end it early.
  */
  predicate Plain(s: string)
  {
    '"' !in s && '\\' !in s && '\0' !in s
  }

  /**
    A value whose printed text denotes it: no floats (printed by `%lf`,
    outside this model), plain strings and keys, and maps that satisfy the
    map invariant.
  */
  predicate Printable(v: Value)
    decreases v, 1
  {
    match v
    case Int(_) => true
    case Float(_) => false
    case Bool(_) => true
    case Null => true
    case Str(s) => Plain(s)
    case Arr(items) => forall i :: 0 <= i < |items| ==> Printable(items[i])
    case Obj(m) => ValidMap(m) && EntriesPrintable(v, 0)
  }

  /** The entries `k ..` of the map `v` have plain keys and printable values. */
  predicate EntriesPrintable(v: Value, k: nat)
    requires v.Obj?
    decreases v, 0, |Entries(v.m)| - k
  {
    var es := Entries(v.m);
    k >= |es| ||
      (EntrySmaller(v.m, |v.m.buckets|, k);
       Plain(es[k].0) && Printable(es[k].1) && EntriesPrintable(v, k + 1))
  }

  /* ---------- Text inside a buffer ---------- */

  /** `s` occurs in `buf` at position `p`. */
  predicate TextAt(buf: string, p: nat, s: string)
  {
    p + |s| <= |buf| && forall k {:trigger s[k]} :: 0 <= k < |s| ==> buf[p + k] == s[k]
  }

  /** Positions `from .. to - 1` of `buf` hold white space only. */
  predicate Blank(buf: string, from: nat, to: nat)
  {
    from <= to <= |buf| && forall q {:trigger IsWhitespace(buf[q])} :: from <= q < to ==> IsWhitespace(buf[q])
  }

  lemma Split(buf: string, p: nat, a: string, b: string)
    requires TextAt(buf, p, a + b)
    ensures TextAt(buf, p, a) && TextAt(buf, p + |a|, b)
  {
    forall k | 0 <= k < |a|
      ensures buf[p + k] == a[k]
    {
      assert (a + b)[k] == a[k];
    }
    forall k | 0 <= k < |b|
      ensures buf[p + |a| + k] == b[k]
    {
      assert (a + b)[|a| + k] == b[k];
    }
  }

  lemma Assoc(a: string, b: string, c: string)
    ensures (a + b) + c == a + (b + c)
  {
  }

  lemma CharAtText(buf: string, p: nat, s: string, q: nat)
    requires TextAt(buf, p, s) && q < |s|
    ensures buf[p + q] == s[q]
  {
  }

  /** Indentation is white space. */
  lemma IndentBlank(buf: string, p: nat, level: nat)
    requires TextAt(buf, p, Indent(level))
    ensures Blank(buf, p, p + |Indent(level)|)
  {
    forall q | p <= q < p + |Indent(level)|
      ensures IsWhitespace(buf[q])
    {
      CharAtText(buf, p, Indent(level), q - p);
    }
  }

  /* ---------- The lexer over known text ---------- */

  lemma {:induction false} TrimTo(buf: string, st: LexState, i: nat)
    requires Blank(buf, st.index, i) && (i == |buf| || !IsWhitespace(buf[i]))
    ensures Trimmed(buf, st).index == i
    decreases i - st.index
  {
    if st.index < i {
      TrimTo(buf, Forward(st, buf[st.index]), i);
    }
  }

  lemma {:induction false} FindTo(buf: string, st: LexState, c: char, j: nat)
    requires st.index <= j < |buf| && buf[j] == c
    requires forall q :: st.index <= q < j ==> buf[q] != c
    ensures FindChar(buf, st, c).0 && FindChar(buf, st, c).1.index == j
    decreases j - st.index
  {
    if st.index < j {
      FindTo(buf, Forward(st, buf[st.index]), c, j);
    }
  }

  lemma {:induction false} LiteralTo(buf: string, st: LexState, e: nat)
    requires st.index <= e <= |buf|
    requires forall q :: st.index <= q < e ==> !IsDelimiter(buf[q])
    requires e == |buf| || IsDelimiter(buf[e])
    ensures LiteralEnd(buf, st).index == e
    decreases e - st.index
  {
    if st.index < e {
      LiteralTo(buf, Forward(st, buf[st.index]), e);
    }
  }

  /** After white space, a punctuation character lexes as its token. */
  lemma LexPunct(buf: string, st: LexState, prev: Token, i: nat)
    requires Blank(buf, st.index, i) && i < |buf| && IsStructural(buf[i])
    ensures var r := Lex(buf, st, prev);
      r.ok && r.token.kind == Punctuation(buf[i]) && r.state.index == i + 1
  {
    TrimTo(buf, st, i);
  }

  /** After white space, the end of the buffer lexes as End. */
  lemma LexEnd(buf: string, st: LexState, prev: Token)
    requires Blank(buf, st.index, |buf|)
    ensures Lex(buf, st, prev).token.kind == End
  {
    TrimTo(buf, st, |buf|);
  }

  /** After white space, a quoted text without quotes lexes as a string token. */
  lemma LexString(buf: string, st: LexState, prev: Token, i: nat, s: string)
    requires Blank(buf, st.index, i) && TextAt(buf, i, "\"" + s + "\"") && '"' !in s
    ensures var r := Lex(buf, st, prev);
      && r.ok && r.token.kind == StringLit && Text(buf, r.token) == s
      && r.state.index == i + |s| + 2
  {
    Split(buf, i, "\"" + s, "\"");
    Split(buf, i, "\"", s);
    CharAtText(buf, i, "\"", 0);
    CharAtText(buf, i + |s| + 1, "\"", 0);
    TrimTo(buf, st, i);
    var t := Trimmed(buf, st);
    forall q | i + 1 <= q < i + 1 + |s|
      ensures buf[q] != '"'
    {
      CharAtText(buf, i + 1, s, q - i - 1);
    }
    FindTo(buf, IncState(t), '"', i + 1 + |s|);
    assert buf[i + 1..i + 1 + |s|] == s;
  }

  /**
    After white space, a literal running up to a delimiter or the end of the
    buffer lexes as a token of the kind its text has.
  */
  lemma LexLiteral(buf: string, st: LexState, prev: Token, i: nat, t: string)
    requires Blank(buf, st.index, i) && TextAt(buf, i, t) && t != []
    requires forall q :: 0 <= q < |t| ==> !IsDelimiter(t[q])
    requires t[0] != '"' && t[0] != '\0' && t[0] != Eof
    requires i + |t| == |buf| || IsDelimiter(buf[i + |t|])
    ensures var r := Lex(buf, st, prev);
      && r.token.kind == LiteralKind(t) && r.ok == (LiteralKind(t) != Invalid)
      && Text(buf, r.token) == t && r.state.index == i + |t|
  {
    CharAtText(buf, i, t, 0);
    TrimTo(buf, st, i);
    var s := Trimmed(buf, st);
    forall q | i <= q < i + |t|
      ensures !IsDelimiter(buf[q])
    {
      CharAtText(buf, i, t, q - i);
    }
    LiteralTo(buf, s, i + |t|);
    assert buf[i..i + |t|] == t;
  }

  /* ---------- Integers ---------- */

  lemma {:induction false} DigitsValue(n: nat)
    ensures DecimalValue(Digits(n)) == n
  {
    if n >= 10 {
      DigitsValue(n / 10);
      var ds := Digits(n);
      assert ds[..|ds| - 1] == Digits(n / 10);
    }
  }

  /** The digits after the sign run to the end of the text. */
  lemma DigitsToEnd(t: string, i: nat)
    requires i <= |t| && forall k :: i <= k < |t| ==> IsDigit(t[k])
    ensures DigitsEnd(t, i) == |t|
  {
  }

  /** A sign and digits: no leading white space, a sign only for `-`, the digits after it. */
  lemma SignedText(sign: string, ds: string)
    requires sign == "" || sign == "-"
    requires |ds| > 0 && forall k :: 0 <= k < |ds| ==> IsDigit(ds[k])
    ensures var t := sign + ds;
      && t != [] && !IsSpace(t[0])
      && ((t[0] == '-' || t[0] == '+') <==> sign == "-")
      && t[|sign|..] == ds
      && forall k :: |sign| <= k < |t| ==> IsDigit(t[k])
  {
    var t := sign + ds;
    assert t[0] == (if sign == "" then ds[0] else '-');
    forall k | |sign| <= k < |t|
      ensures IsDigit(t[k])
    {
      assert t[k] == ds[k - |sign|];
    }
  }

  /** `atoll` of a sign and digits: the signed decimal value, when within range. */
  lemma AtollSigned(sign: string, ds: string)
    requires sign == "" || sign == "-"
    requires |ds| > 0 && forall k :: 0 <= k < |ds| ==> IsDigit(ds[k])
    requires DecimalValue(ds) <= MaxInt64
    ensures Atoll(sign + ds) == if sign == "-" then -(DecimalValue(ds) as int) else DecimalValue(ds)
  {
    var t := sign + ds;
    SignedText(sign, ds);
    AtollToEnd(t, |sign|);
  }

  /** `atoll` of a text without leading space whose digits run to its end. */
  lemma AtollToEnd(t: string, i: nat)
    requires t != [] && !IsSpace(t[0])
    requires i == (if t[0] == '-' || t[0] == '+' then 1 else 0)
    requires i <= |t| && forall k :: i <= k < |t| ==> IsDigit(t[k])
    requires DecimalValue(t[i..]) <= MaxInt64
    ensures Atoll(t) == if i == 1 && t[0] == '-' then -(DecimalValue(t[i..]) as int) else DecimalValue(t[i..])
  {
    assert SkipSpaces(t) == t;
    DigitsToEnd(t, i);
    assert t[i..DigitsEnd(t, i)] == t[i..];
  }

  /** The text `IntText` gives: a sign for negatives, then the digits. */
  lemma IntTextParts(x: int)
    ensures var n := if x < 0 then -x else x;
      IntText(x) == (if x < 0 then "-" else "") + Digits(n)
  {
  }

  /** An `int32` printed in decimal: signs and digits only, at least one character. */
  lemma IntTextShape(x: int32)
    ensures var t := IntText(x as int);
      && t != [] && (forall q :: 0 <= q < |t| ==> !IsDelimiter(t[q]) && t[q] != '\0')
      && t[0] != '"' && t[0] != Eof
  {
    var n: nat := if x < 0 then -(x as int) else x as int;
    var sign := if x < 0 then "-" else "";
    var t := IntText(x as int);
    IntTextParts(x as int);
    forall q | 0 <= q < |t|
      ensures !IsDelimiter(t[q]) && t[q] != '\0'
    {
      if q >= |sign| {
        assert t[q] == Digits(n)[q - |sign|];
      }
      NumberChar(t[q]);
    }
    NumberChar(t[0]);
  }

  /** A sign or a digit is neither a delimiter nor NUL nor a quote. */
  lemma NumberChar(c: char)
    requires c == '-' || IsDigit(c)
    ensures !IsDelimiter(c) && c != '\0' && c != '"' && c != Eof
  {
  }

  /** An `int32` printed in decimal is an integer literal that reads back as itself. */
  lemma IntTextReadsBack(x: int32)
    ensures LiteralKind(IntText(x as int)) == IntLit
    ensures IntValue(IntText(x as int)) == x
  {
    var n: nat := if x < 0 then -(x as int) else x as int;
    var sign := if x < 0 then "-" else "";
    var t := IntText(x as int);
    IntTextKind(x);
    IntTextParts(x as int);
    assert t == sign + Digits(n);
    DigitsValue(n);
    AtollSigned(sign, Digits(n));
    assert Atoll(t) == x as int;
  }

  /** An `int32` printed in decimal is an integer literal. */
  lemma IntTextKind(x: int32)
    ensures LiteralKind(IntText(x as int)) == IntLit
  {
    var n: nat := if x < 0 then -(x as int) else x as int;
    var sign := if x < 0 then "-" else "";
    IntTextParts(x as int);
    SignedDigitsAreInt(sign, Digits(n));
  }

  /* ---------- Values ---------- */

  /**
    What the parser reads as a value from the lexer's cursor `st` on: the
    next token must start a value, and the value is parsed from it.
  */
  function ValueFrom(buf: string, st: LexState, prev: Token): Parsed
  {
    var r := Lex(buf, st, prev);
    if IsValueToken(r.token.kind) then ParseValue(buf, r.state, r.token) else Rejected
  }

  /** Reading a value from `st` gives `v`, with the lexer ending at `e`. */
  predicate ParsesTo(buf: string, st: LexState, prev: Token, v: Value, e: nat)
  {
    var p := ValueFrom(buf, st, prev);
    p.Parsed? && p.value == v && p.state.index == e
  }

  lemma IntRoundTrip(x: int32, ind: nat, buf: string, st: LexState, prev: Token, i: nat)
    requires Blank(buf, st.index, i) && TextAt(buf, i, Render(Int(x), ind))
    requires i + |Render(Int(x), ind)| == |buf| || IsDelimiter(buf[i + |Render(Int(x), ind)|])
    ensures ParsesTo(buf, st, prev, Int(x), i + |Render(Int(x), ind)|)
  {
    IntToken(x, buf, st, prev, i);
    IntTextReadsBack(x);
  }

  /** A printed `int32` lexes as an integer token whose text is the printed text. */
  lemma IntToken(x: int32, buf: string, st: LexState, prev: Token, i: nat)
    requires Blank(buf, st.index, i) && TextAt(buf, i, IntText(x as int))
    requires i + |IntText(x as int)| == |buf| || IsDelimiter(buf[i + |IntText(x as int)|])
    ensures Lex(buf, st, prev).token.kind == IntLit
    ensures Extract(buf, Lex(buf, st, prev).token) == IntText(x as int)
    ensures Lex(buf, st, prev).state.index == i + |IntText(x as int)|
  {
    var text := IntText(x as int);
    IntTextShape(x);
    IntTextKind(x);
    LexLiteral(buf, st, prev, i, text);
    CStringOfPlain(text);
  }

  lemma KeywordRoundTrip(v: Value, ind: nat, buf: string, st: LexState, prev: Token, i: nat)
    requires v.Bool? || v.Null?
    requires Blank(buf, st.index, i) && TextAt(buf, i, Render(v, ind))
    requires i + |Render(v, ind)| == |buf| || IsDelimiter(buf[i + |Render(v, ind)|])
    ensures ParsesTo(buf, st, prev, v, i + |Render(v, ind)|)
  {
    KeywordShape(v, ind);
    LexLiteral(buf, st, prev, i, Render(v, ind));
  }

  /** `true`, `false` and `null` are literals of their own kinds. */
  lemma KeywordShape(v: Value, ind: nat)
    requires v.Bool? || v.Null?
    ensures var t := Render(v, ind);
      && t != [] && (forall q :: 0 <= q < |t| ==> !IsDelimiter(t[q]))
      && t[0] != '"' && t[0] != '\0' && t[0] != Eof
      && LiteralKind(t) == (if v.Null? then NullLit else if v.b then TrueLit else FalseLit)
  {
    LiteralKinds(Render(v, ind));
  }

  lemma StrRoundTrip(s: string, ind: nat, buf: string, st: LexState, prev: Token, i: nat)
    requires Plain(s)
    requires Blank(buf, st.index, i) && TextAt(buf, i, Render(Str(s), ind))
    ensures ParsesTo(buf, st, prev, Str(s), i + |Render(Str(s), ind)|)
  {
    CStringOfPlain(s);
    LexString(buf, st, prev, i, s);
    UnescapePlain(s);
    var r := Lex(buf, st, prev);
    assert Extract(buf, r.token) == s;
  }

  /** An opening bracket starts the array routine with an unset token. */
  lemma ArrayOpens(buf: string, st: LexState, prev: Token, i: nat)
    requires Blank(buf, st.index, i) && i < |buf| && buf[i] == '['
    ensures var r := Lex(buf, st, prev);
      && r.ok && r.token.kind == ArrayOpen && r.state.index == i + 1
      && ParseValue(buf, r.state, r.token) == ParseArray(buf, r.state, Unset, [])
  {
    LexPunct(buf, st, prev, i);
  }

  /** An opening brace starts the map routine with an unset token and an empty map. */
  lemma MapOpens(buf: string, st: LexState, prev: Token, i: nat)
    requires Blank(buf, st.index, i) && i < |buf| && buf[i] == '{'
    ensures var r := Lex(buf, st, prev);
      && r.ok && r.token.kind == MapOpen && r.state.index == i + 1
      && ParseValue(buf, r.state, r.token) == ParseMap(buf, r.state, Unset, EmptyMap())
  {
    LexPunct(buf, st, prev, i);
  }

  /**
    The printable value `v`, printed at level `ind`, stands in the buffer
    at `i` after white space from the cursor `st`, and a delimiter or the
    end of the buffer follows it.
  */
  predicate ValueAt(v: Value, ind: nat, buf: string, from: nat, i: nat)
  {
    && Printable(v)
    && Blank(buf, from, i) && TextAt(buf, i, Render(v, ind))
    && (i + |Render(v, ind)| == |buf| || IsDelimiter(buf[i + |Render(v, ind)|]))
  }

  /**
    A printable value printed at `i`, after white space and before a
    delimiter or the end of the buffer, lexes as a value token from which
    the value is parsed back, ending right after its text.
  */
  lemma {:induction false} ValueRoundTrip(v: Value, ind: nat, buf: string, st: LexState, prev: Token, i: nat)
    requires ValueAt(v, ind, buf, st.index, i)
    ensures ParsesTo(buf, st, prev, v, i + |Render(v, ind)|)
    decreases v, 2
  {
    match v
    case Int(x) =>
      IntRoundTrip(x, ind, buf, st, prev, i);
    case Float(_) =>
    case Bool(_) =>
      KeywordRoundTrip(v, ind, buf, st, prev, i);
    case Null =>
      KeywordRoundTrip(v, ind, buf, st, prev, i);
    case Str(s) =>
      StrRoundTrip(s, ind, buf, st, prev, i);
    case Arr(_) =>
      CharAtText(buf, i, Render(v, ind), 0);
      ArrayOpens(buf, st, prev, i);
      ArrayRoundTrip(v, ind, buf, Lex(buf, st, prev).state, i);
    case Obj(_) =>
      CharAtText(buf, i, Render(v, ind), 0);
      MapOpens(buf, st, prev, i);
      MapRoundTrip(v, ind, buf, Lex(buf, st, prev).state, i);
  }

  /* ---------- One step of the container loops ---------- */

  /** The lexer call after a value: what follows the value that starts at `st`. */
  function AfterValue(buf: string, st: LexState, tok: Token): Lexed
  {
    var r := Lex(buf, st, tok);
    if !IsValueToken(r.token.kind) then r
    else
      var p := ParseValue(buf, r.state, r.token);
      if p.Rejected? then r else Lex(buf, p.state, r.token)
  }

  /** The lexer call after a key and its colon: what the entry's value starts with. */
  function AfterColon(buf: string, st: LexState, tok: Token): Lexed
  {
    var r := Lex(buf, st, tok);
    Lex(buf, r.state, r.token)
  }

  /** After a parsed value, white space and a punctuation character come next. */
  lemma AfterValueAt(buf: string, st: LexState, tok: Token, v: Value, e: nat, c: nat)
    requires ParsesTo(buf, st, tok, v, e) && Blank(buf, e, c) && c < |buf| && IsStructural(buf[c])
    ensures var n := AfterValue(buf, st, tok);
      n.token.kind == Punctuation(buf[c]) && n.state.index == c + 1
  {
    var r := Lex(buf, st, tok);
    LexPunct(buf, ParseValue(buf, r.state, r.token).state, r.token, c);
  }

  /** One pass of the array loop: an item, then a comma or the closing bracket. */
  lemma ArrayStep(buf: string, st: LexState, tok: Token, items: seq<Value>, v: Value, e: nat)
    requires tok.kind == Invalid || tok.kind == Sep
    requires ParsesTo(buf, st, tok, v, e)
    ensures var n := AfterValue(buf, st, tok);
      ParseArray(buf, st, tok, items) ==
        if n.token.kind == Sep then ParseArray(buf, n.state, n.token, items + [v])
        else if n.token.kind == ArrayClose then Parsed(Arr(items + [v]), n.state)
        else Rejected
  {
  }

  /** A key in quotes after white space, then a colon: the value is lexed after the colon. */
  lemma EntryHead(buf: string, st: LexState, tok: Token, q: nat, key: string)
    requires Blank(buf, st.index, q) && TextAt(buf, q, "\"" + key + "\"") && Plain(key)
    requires q + |key| + 2 < |buf| && buf[q + |key| + 2] == ':'
    ensures var r := Lex(buf, st, tok);
      && r.token.kind == StringLit && Extract(buf, r.token) == key
      && Lex(buf, r.state, r.token).token.kind == MapSep
      && AfterColon(buf, st, tok).state.index == q + |key| + 3
  {
    LexString(buf, st, tok, q, key);
    UnescapePlain(key);
    CStringOfPlain(key);
    var r := Lex(buf, st, tok);
    LexPunct(buf, r.state, r.token, q + |key| + 2);
  }

  /** One pass of the map loop: a key, a colon, a value, then a comma or the closing brace. */
  lemma MapStep(buf: string, st: LexState, tok: Token, m: MapVal, key: string, v: Value, e: nat)
    requires tok.kind == Invalid || tok.kind == Sep
    requires var r := Lex(buf, st, tok);
      && r.token.kind == StringLit && Extract(buf, r.token) == key && '\0' !in key
      && Lex(buf, r.state, r.token).token.kind == MapSep
    requires var ac := AfterColon(buf, st, tok); ParsesTo(buf, ac.state, ac.token, v, e)
    ensures var ac := AfterColon(buf, st, tok);
      var n := AfterValue(buf, ac.state, ac.token);
      var m' := MapInsert(m, key, v);
      ParseMap(buf, st, tok, m) ==
        if n.token.kind == Sep then ParseMap(buf, n.state, n.token, m')
        else if n.token.kind == MapClose then Parsed(Obj(m'), n.state)
        else Rejected
  {
    CStringOfPlain(key);
  }

  lemma BlankJoin(buf: string, a: nat, b: nat, c: nat)
    requires Blank(buf, a, b) && Blank(buf, b, c)
    ensures Blank(buf, a, c)
  {
  }

  /**
    One printed line inside a container, followed by more text: its
    indentation is white space, then come the head and the value, then the
    separator and a newline.
  */
  lemma Line(buf: string, p: nat, level: nat, head: string, shown: string, last: bool, rest: string)
    requires TextAt(buf, p, (Indent(level) + head + shown + [Separator(last), '\n']) + rest)
    ensures var q := p + |Indent(level)|;
      var e := q + |head| + |shown|;
      && Blank(buf, p, q) && TextAt(buf, q, head) && TextAt(buf, q + |head|, shown)
      && e + 1 < |buf| && buf[e] == Separator(last) && buf[e + 1] == '\n'
      && TextAt(buf, e + 2, rest)
  {
    var sep := [Separator(last), '\n'];
    Assoc(Indent(level) + head + shown, sep, rest);
    Assoc(Indent(level) + head, shown, sep + rest);
    Assoc(Indent(level), head, shown + (sep + rest));
    Split(buf, p, Indent(level), head + (shown + (sep + rest)));
    IndentBlank(buf, p, level);
    var q := p + |Indent(level)|;
    Split(buf, q, head, shown + (sep + rest));
    Split(buf, q + |head|, shown, sep + rest);
    var e := q + |head| + |shown|;
    Split(buf, e, sep, rest);
    CharAtText(buf, e, sep, 0);
    CharAtText(buf, e, sep, 1);
  }

  /** The separator after a line is a delimiter, and white space only after the last line. */
  lemma SeparatorChar(last: bool)
    ensures IsDelimiter(Separator(last)) && (last <==> IsWhitespace(Separator(last)))
    ensures !last ==> IsStructural(Separator(last))
  {
  }

  /** The closing line of a container after its last line: white space up to the bracket. */
  lemma ClosingLine(buf: string, e: nat, level: nat, close: char)
    requires e + 1 < |buf| && buf[e] == Separator(true) && buf[e + 1] == '\n'
    requires TextAt(buf, e + 2, Indent(level) + [close])
    ensures var c := e + 2 + |Indent(level)|;
      Blank(buf, e, c) && c < |buf| && buf[c] == close
  {
    Split(buf, e + 2, Indent(level), [close]);
    IndentBlank(buf, e + 2, level);
    CharAtText(buf, e + 2 + |Indent(level)|, [close], 0);
  }

  /** A newline is white space. */
  lemma NewlineBlank(buf: string, i: nat)
    requires i < |buf| && buf[i] == '\n'
    ensures Blank(buf, i, i + 1)
  {
    assert IsWhitespace(buf[i]);
  }

  /** Item `j` of a printed array is its line, followed by the later lines and the closing one. */
  lemma ItemsText(v: Value, ind: nat, j: nat)
    requires v.Arr? && j < |v.items|
    ensures RenderItems(v, ind, j) + (Indent(ind) + "]")
      == (Indent(ind + 1) + "" + Render(v.items[j], ind + 1) + [Separator(j + 1 == |v.items|), '\n'])
         + (RenderItems(v, ind, j + 1) + (Indent(ind) + "]"))
    ensures j + 1 == |v.items| ==> RenderItems(v, ind, j + 1) + (Indent(ind) + "]") == Indent(ind) + "]"
  {
    var line := Indent(ind + 1) + Render(v.items[j], ind + 1) + [Separator(j + 1 == |v.items|), '\n'];
    assert RenderItems(v, ind, j) == line + RenderItems(v, ind, j + 1);
    Assoc(line, RenderItems(v, ind, j + 1), Indent(ind) + "]");
    assert Indent(ind + 1) + "" == Indent(ind + 1);
  }

  /** The layout of item `j` of a printed array, as `Line` describes it. */
  lemma ItemLines(v: Value, ind: nat, j: nat, buf: string, p: nat)
    requires v.Arr? && j < |v.items|
    requires TextAt(buf, p, RenderItems(v, ind, j) + (Indent(ind) + "]"))
    ensures var q := p + |Indent(ind + 1)|;
      var e := q + |Render(v.items[j], ind + 1)|;
      && Blank(buf, p, q) && TextAt(buf, q, Render(v.items[j], ind + 1))
      && e + 1 < |buf| && buf[e] == Separator(j + 1 == |v.items|) && buf[e + 1] == '\n'
      && TextAt(buf, e + 2, RenderItems(v, ind, j + 1) + (Indent(ind) + "]"))
      && |RenderItems(v, ind, j) + (Indent(ind) + "]")|
         == |Indent(ind + 1)| + |Render(v.items[j], ind + 1)| + 2 + |RenderItems(v, ind, j + 1) + (Indent(ind) + "]")|
  {
    ItemsText(v, ind, j);
    Line(buf, p, ind + 1, "", Render(v.items[j], ind + 1), j + 1 == |v.items|, RenderItems(v, ind, j + 1) + (Indent(ind) + "]"));
  }

  /** Item `j` of a printed array stands after white space and before its separator. */
  lemma ItemLayout(v: Value, ind: nat, j: nat, buf: string, st: LexState, p: nat)
    requires ItemsAt(v, ind, j, buf, st, p)
    ensures var q := p + |Indent(ind + 1)|;
      var e := q + |Render(v.items[j], ind + 1)|;
      && ValueAt(v.items[j], ind + 1, buf, st.index, q)
      && ItemEndsAt(v, ind, j, buf, e)
      && |RenderItems(v, ind, j) + (Indent(ind) + "]")|
         == |Indent(ind + 1)| + |Render(v.items[j], ind + 1)| + 2 + |RenderItems(v, ind, j + 1) + (Indent(ind) + "]")|
  {
    ItemLines(v, ind, j, buf, p);
    BlankJoin(buf, st.index, p, p + |Indent(ind + 1)|);
    SeparatorChar(j + 1 == |v.items|);
  }

  /** The layout of one printed map entry: the quoted key, a colon, a space, the value. */
  lemma EntryText(buf: string, p: nat, ind: nat, key: string, shown: string, last: bool, rest: string)
    requires Plain(key) && TextAt(buf, p, EntryLine(key, shown, ind, last) + rest)
    ensures var q := p + |Indent(ind + 1)|;
      var w := q + |key| + 4;
      var e := w + |shown|;
      && Blank(buf, p, q) && TextAt(buf, q, "\"" + key + "\"")
      && buf[q + |key| + 2] == ':' && buf[q + |key| + 3] == ' '
      && TextAt(buf, w, shown)
      && e + 1 < |buf| && buf[e] == Separator(last) && buf[e + 1] == '\n'
      && TextAt(buf, e + 2, rest)
      && |EntryLine(key, shown, ind, last)| == |Indent(ind + 1)| + |key| + 4 + |shown| + 2
  {
    var head := "\"" + key + "\": ";
    EntryLineParts(key, shown, ind, last);
    Line(buf, p, ind + 1, head, shown, last, rest);
    KeyColon(buf, p + |Indent(ind + 1)|, key);
  }

  /** Entry `k` of a printed map is its line, followed by the later lines and the closing one. */
  lemma EntryLayout(v: Value, ind: nat, k: nat)
    requires v.Obj? && k < |Entries(v.m)|
    ensures var es := Entries(v.m);
      RenderEntries(v, ind, k, |es| - k) + (Indent(ind) + "}")
      == EntryLine(es[k].0, Render(es[k].1, ind + 1), ind, k + 1 == |es|)
         + (RenderEntries(v, ind, k + 1, |es| - (k + 1)) + (Indent(ind) + "}"))
    ensures var es := Entries(v.m);
      k + 1 == |es| ==> RenderEntries(v, ind, k + 1, |es| - (k + 1)) + (Indent(ind) + "}") == Indent(ind) + "}"
  {
    EntrySeparators(v, ind, k);
    var es := Entries(v.m);
    if k + 1 == |es| {
      assert RenderEntries(v, ind, k + 1, |es| - (k + 1)) == "";
    }
  }

  lemma EntryLineParts(key: string, shown: string, ind: nat, last: bool)
    requires Plain(key)
    ensures EntryLine(key, shown, ind, last) == Indent(ind + 1) + ("\"" + key + "\": ") + shown + [Separator(last), '\n']
  {
    CStringOfPlain(key);
  }

  lemma KeyColon(buf: string, q: nat, key: string)
    requires TextAt(buf, q, "\"" + key + "\": ")
    ensures TextAt(buf, q, "\"" + key + "\"") && buf[q + |key| + 2] == ':' && buf[q + |key| + 3] == ' '
  {
    assert "\"" + key + "\": " == ("\"" + key + "\"") + ": ";
    Split(buf, q, "\"" + key + "\"", ": ");
    CharAtText(buf, q + |key| + 2, ": ", 0);
    CharAtText(buf, q + |key| + 2, ": ", 1);
  }

  /** The printed empty array, from just after its `[`, parses back to the empty array. */
  lemma ArrayCloses(buf: string, st: LexState, ind: nat, i: nat)
    requires TextAt(buf, i, "[\n" + (Indent(ind) + "]")) && st.index == i + 1
    ensures var r := ParseArray(buf, st, Unset, []);
      r.Parsed? && r.value == Arr([]) && r.state.index == i + 3 + |Indent(ind)|
  {
    var c := i + 2 + |Indent(ind)|;
    Split(buf, i, "[\n", Indent(ind) + "]");
    CharAtText(buf, i, "[\n", 1);
    Split(buf, i + 2, Indent(ind), "]");
    IndentBlank(buf, i + 2, ind);
    CharAtText(buf, c, "]", 0);
    BlankJoin(buf, i + 1, i + 2, c);
    LexPunct(buf, st, Unset, c);
  }

  /** The printed empty map, from just after its `{`, parses back to the empty map. */
  lemma MapCloses(buf: string, st: LexState, ind: nat, i: nat)
    requires TextAt(buf, i, "{\n" + (Indent(ind) + "}")) && st.index == i + 1
    ensures var r := ParseMap(buf, st, Unset, EmptyMap());
      r.Parsed? && r.value == Obj(EmptyMap()) && r.state.index == i + 3 + |Indent(ind)|
  {
    var c := i + 2 + |Indent(ind)|;
    Split(buf, i, "{\n", Indent(ind) + "}");
    CharAtText(buf, i, "{\n", 1);
    Split(buf, i + 2, Indent(ind), "}");
    IndentBlank(buf, i + 2, ind);
    CharAtText(buf, c, "}", 0);
    BlankJoin(buf, i + 1, i + 2, c);
    LexPunct(buf, st, Unset, c);
  }

  /** A printed array, from just after its `[`, parses back to itself. */
  lemma {:induction false} ArrayRoundTrip(v: Value, ind: nat, buf: string, st: LexState, i: nat)
    requires v.Arr? && Printable(v)
    requires TextAt(buf, i, Render(v, ind)) && st.index == i + 1
    ensures var p := ParseArray(buf, st, Unset, []);
      p.Parsed? && p.value == v && p.state.index == i + |Render(v, ind)|
    decreases v, 1, |v.items| + 1
  {
    RenderArray(v, ind);
    var body := RenderItems(v, ind, 0) + (Indent(ind) + "]");
    assert Render(v, ind) == "[\n" + body;
    if |v.items| == 0 {
      assert body == Indent(ind) + "]";
      ArrayCloses(buf, st, ind, i);
      assert v == Arr([]);
    } else {
      Split(buf, i, "[\n", body);
      CharAtText(buf, i, "[\n", 1);
      assert Blank(buf, i + 1, i + 2);
      ItemsRoundTrip(v, ind, 0, buf, st, Unset, i + 2, []);
      AppendFromSuffix([], v.items, 0);
      assert [] + v.items[0..] == v.items;
    }
  }

  /**
    The buffer holds, from `p` on, the lines of items `j ..` of the printed
    array `v` and its closing line, with only white space between the
    lexer's cursor `st` and `p`.
  */
  predicate ItemsAt(v: Value, ind: nat, j: nat, buf: string, st: LexState, p: nat)
  {
    match v
    case Arr(items) =>
      && Printable(v) && j < |items|
      && Blank(buf, st.index, p)
      && TextAt(buf, p, RenderItems(v, ind, j) + (Indent(ind) + "]"))
    case _ => false
  }

  /**
    The printed item `j` of `v` ends at `e`: its separator and newline
    follow, then the later lines and the closing one.
  */
  predicate ItemEndsAt(v: Value, ind: nat, j: nat, buf: string, e: nat)
  {
    match v
    case Arr(items) =>
      && Printable(v) && j < |items|
      && e + 1 < |buf| && buf[e] == Separator(j + 1 == |items|) && buf[e + 1] == '\n'
      && TextAt(buf, e + 2, RenderItems(v, ind, j + 1) + (Indent(ind) + "]"))
    case _ => false
  }

  /** Where item `j` of a printed array ends when the item's line starts at `p`. */
  function ItemEnd(v: Value, ind: nat, j: nat, p: nat): nat
    requires v.Arr? && j < |v.items|
  {
    p + |Indent(ind + 1)| + |Render(v.items[j], ind + 1)|
  }

  /** Item `j` of a printed array parses back and is followed by its separator. */
  lemma ItemValue(v: Value, ind: nat, j: nat, buf: string, st: LexState, tok: Token, p: nat)
    requires ItemsAt(v, ind, j, buf, st, p)
    ensures ParsesTo(buf, st, tok, v.items[j], ItemEnd(v, ind, j, p))
    ensures ItemEndsAt(v, ind, j, buf, ItemEnd(v, ind, j, p))
    ensures p + |RenderItems(v, ind, j) + (Indent(ind) + "]")|
      == ItemEnd(v, ind, j, p) + 2 + |RenderItems(v, ind, j + 1) + (Indent(ind) + "]")|
    decreases v, 1, |v.items| - j, 0
  {
    ItemLayout(v, ind, j, buf, st, p);
    ValueRoundTrip(v.items[j], ind + 1, buf, st, tok, p + |Indent(ind + 1)|);
  }

  /** After the last item of a printed array come the closing line and the bracket. */
  lemma ItemNextLast(v: Value, ind: nat, j: nat, buf: string, st: LexState, tok: Token, e: nat)
    requires ItemEndsAt(v, ind, j, buf, e) && ParsesTo(buf, st, tok, v.items[j], e)
    requires j + 1 == |v.items|
    ensures AfterValue(buf, st, tok).token.kind == ArrayClose
    ensures AfterValue(buf, st, tok).state.index == e + 2 + |RenderItems(v, ind, j + 1) + (Indent(ind) + "]")|
  {
    SeparatorChar(true);
    assert RenderItems(v, ind, j + 1) == "";
    assert RenderItems(v, ind, j + 1) + (Indent(ind) + "]") == Indent(ind) + "]";
    ClosingLine(buf, e, ind, ']');
    AfterValueAt(buf, st, tok, v.items[j], e, e + 2 + |Indent(ind)|);
  }

  /** After any other item of a printed array come a comma and the next item's line. */
  lemma ItemNextMore(v: Value, ind: nat, j: nat, buf: string, st: LexState, tok: Token, e: nat)
    requires ItemEndsAt(v, ind, j, buf, e) && ParsesTo(buf, st, tok, v.items[j], e)
    requires j + 1 < |v.items|
    ensures AfterValue(buf, st, tok).token.kind == Sep
    ensures ItemsAt(v, ind, j + 1, buf, AfterValue(buf, st, tok).state, e + 2)
  {
    SeparatorChar(false);
    AfterValueAt(buf, st, tok, v.items[j], e, e);
    NewlineBlank(buf, e + 1);
  }

  /**
    The items `j ..` of a printed array, followed by the closing line, parse
    back: the loop of `cson__parse_array` ends with all items pushed after
    the items `acc` read so far.
  */
  lemma {:induction false} ItemsRoundTrip(v: Value, ind: nat, j: nat, buf: string, st: LexState, tok: Token, p: nat, acc: seq<Value>)
    requires ItemsAt(v, ind, j, buf, st, p)
    requires tok.kind == Invalid || tok.kind == Sep
    ensures ParseArray(buf, st, tok, acc).Parsed?
    ensures ParseArray(buf, st, tok, acc).value == Arr(AppendFrom(acc, v.items, j))
    ensures ParseArray(buf, st, tok, acc).state.index == p + |RenderItems(v, ind, j) + (Indent(ind) + "]")|
    decreases v, 1, |v.items| - j, 3
  {
    if j + 1 == |v.items| {
      ItemLast(v, ind, j, buf, st, tok, p, acc);
    } else {
      var n, q, acc' := ItemMore(v, ind, j, buf, st, tok, p, acc);
      ItemsRoundTrip(v, ind, j + 1, buf, n.state, n.token, q, acc');
    }
  }

  /**
    Item `j` of a printed array that is not the last: it parses back, and
    after it come a comma and the next item's line.
  */
  lemma ItemReadMore(v: Value, ind: nat, j: nat, buf: string, st: LexState, tok: Token, p: nat)
    requires ItemsAt(v, ind, j, buf, st, p) && j + 1 < |v.items|
    ensures ParsesTo(buf, st, tok, v.items[j], ItemEnd(v, ind, j, p))
    ensures AfterValue(buf, st, tok).token.kind == Sep
    ensures ItemsAt(v, ind, j + 1, buf, AfterValue(buf, st, tok).state, ItemEnd(v, ind, j, p) + 2)
    ensures p + |RenderItems(v, ind, j) + (Indent(ind) + "]")|
      == ItemEnd(v, ind, j, p) + 2 + |RenderItems(v, ind, j + 1) + (Indent(ind) + "]")|
    decreases v, 1, |v.items| - j, 1
  {
    ItemValue(v, ind, j, buf, st, tok, p);
    ItemNextMore(v, ind, j, buf, st, tok, ItemEnd(v, ind, j, p));
  }

  /**
    The last pass of the array loop over a printed array: the last item is
    pushed onto `acc` and the parser stops after the closing bracket.
  */
  lemma ItemLast(v: Value, ind: nat, j: nat, buf: string, st: LexState, tok: Token, p: nat, acc: seq<Value>)
    requires ItemsAt(v, ind, j, buf, st, p) && j + 1 == |v.items|
    requires tok.kind == Invalid || tok.kind == Sep
    ensures ParseArray(buf, st, tok, acc).Parsed?
    ensures ParseArray(buf, st, tok, acc).value == Arr(AppendFrom(acc, v.items, j))
    ensures ParseArray(buf, st, tok, acc).state.index == p + |RenderItems(v, ind, j) + (Indent(ind) + "]")|
    decreases v, 1, |v.items| - j, 2
  {
    var e := ItemEnd(v, ind, j, p);
    ItemValue(v, ind, j, buf, st, tok, p);
    ItemNextLast(v, ind, j, buf, st, tok, e);
    ArrayStep(buf, st, tok, acc, v.items[j], e);
    AppendFromLast(acc, v.items, j);
  }

  /**
    Any other pass of the array loop over a printed array: item `j` is
    pushed onto `acc`, giving `acc'`, and the parser goes on with the token
    `n` after the comma and the next item's line at `q`.
  */
  lemma ItemMore(v: Value, ind: nat, j: nat, buf: string, st: LexState, tok: Token, p: nat, acc: seq<Value>)
    returns (n: Lexed, q: nat, acc': seq<Value>)
    requires ItemsAt(v, ind, j, buf, st, p) && j + 1 < |v.items|
    requires tok.kind == Invalid || tok.kind == Sep
    ensures n.token.kind == Sep && ItemsAt(v, ind, j + 1, buf, n.state, q)
    ensures ParseArray(buf, st, tok, acc) == ParseArray(buf, n.state, n.token, acc')
    ensures AppendFrom(acc, v.items, j) == AppendFrom(acc', v.items, j + 1)
    ensures p + |RenderItems(v, ind, j) + (Indent(ind) + "]")|
      == q + |RenderItems(v, ind, j + 1) + (Indent(ind) + "]")|
    decreases v, 1, |v.items| - j, 2
  {
    var e := ItemEnd(v, ind, j, p);
    ItemReadMore(v, ind, j, buf, st, tok, p);
    ArrayStep(buf, st, tok, acc, v.items[j], e);
    n := AfterValue(buf, st, tok);
    q := e + 2;
    acc' := acc + [v.items[j]];
  }

  /** The items `acc` followed by the items `j ..` of `s`, appended one at a time. */
  function AppendFrom(acc: seq<Value>, s: seq<Value>, j: nat): seq<Value>
    decreases |s| - j
  {
    if j >= |s| then acc else AppendFrom(acc + [s[j]], s, j + 1)
  }

  /** Appending from the last index on appends that one item. */
  lemma AppendFromLast(acc: seq<Value>, s: seq<Value>, j: nat)
    requires j + 1 == |s|
    ensures AppendFrom(acc, s, j) == acc + [s[j]]
  {
    assert AppendFrom(acc + [s[j]], s, j + 1) == acc + [s[j]];
  }

  /** Appending the items of `s` from index `j` on appends the suffix of `s` that starts at `j`. */
  lemma {:induction false} AppendFromSuffix(acc: seq<Value>, s: seq<Value>, j: nat)
    requires j <= |s|
    ensures AppendFrom(acc, s, j) == acc + s[j..]
    decreases |s| - j
  {
    if j < |s| {
      AppendFromSuffix(acc + [s[j]], s, j + 1);
      assert acc + [s[j]] + s[j + 1..] == acc + s[j..];
    }
  }

  /** A printed map, from just after its `{`, parses back to itself. */
  lemma {:induction false} MapRoundTrip(v: Value, ind: nat, buf: string, st: LexState, i: nat)
    requires v.Obj? && Printable(v)
    requires TextAt(buf, i, Render(v, ind)) && st.index == i + 1
    ensures var p := ParseMap(buf, st, Unset, EmptyMap());
      p.Parsed? && p.value == v && p.state.index == i + |Render(v, ind)|
    decreases v, 1, |Entries(v.m)| + 1
  {
    var es := Entries(v.m);
    SizeIsEntries(v.m);
    RenderMap(v, ind);
    var body := RenderEntries(v, ind, 0, |es|) + (Indent(ind) + "}");
    assert Render(v, ind) == "{\n" + body;
    if |es| == 0 {
      assert body == Indent(ind) + "}";
      MapCloses(buf, st, ind, i);
      EmptyEntries(v.m);
    } else {
      Split(buf, i, "{\n", body);
      CharAtText(buf, i, "{\n", 1);
      assert Blank(buf, i + 1, i + 2);
      assert EntriesAt(v, ind, 0, buf, st, i + 2);
      EntriesFilled(v, ind, 0, buf, st, i + 2);
      assert |Render(v, ind)| == 2 + |body|;
    }
  }

  /** The entries of a non-empty map, printed from `p` on, parse back into the map. */
  lemma EntriesFilled(v: Value, ind: nat, k: nat, buf: string, st: LexState, p: nat)
    requires k == 0 && EntriesAt(v, ind, k, buf, st, p)
    ensures var r := ParseMap(buf, st, Unset, EmptyMap());
      && r.Parsed? && r.value == v
      && r.state.index == p + |RenderEntries(v, ind, k, |Entries(v.m)| - k) + (Indent(ind) + "}")|
    decreases v, 1, |Entries(v.m)|, 4
  {
    EntriesRoundTrip(v, ind, k, buf, st, Unset, p, EmptyMap());
    RebuildByIndex(v);
  }

  /** Inserting the entries of a valid map, in order, into the empty map rebuilds it. */
  lemma RebuildByIndex(v: Value)
    requires v.Obj? && ValidMap(v.m)
    ensures Obj(InsertFrom(EmptyMap(), Entries(v.m), 0)) == v
  {
    InsertFromAll(Entries(v.m));
    RebuildFromEntries(v.m);
  }

  /** A valid map has as many entries as its size says. */
  lemma SizeIsEntries(m: MapVal)
    requires ValidMap(m)
    ensures m.size == |Entries(m)|
  {
    KeysSpec(m);
    assert |EntryKeys(Entries(m))| == |Entries(m)|;
  }

  /** A valid map without entries is the empty map. */
  lemma EmptyEntries(m: MapVal)
    requires ValidMap(m) && |Entries(m)| == 0
    ensures m == EmptyMap()
  {
    RebuildFromEntries(m);
  }

  /**
    The buffer holds, from `p` on, the lines of entries `k ..` of the
    printed map `v` and its closing line, with only white space between the
    lexer's cursor `st` and `p`.
  */
  predicate EntriesAt(v: Value, ind: nat, k: nat, buf: string, st: LexState, p: nat)
  {
    match v
    case Obj(m) =>
      && ValidMap(m) && EntriesPrintable(v, k) && k < |Entries(m)|
      && Blank(buf, st.index, p)
      && TextAt(buf, p, RenderEntries(v, ind, k, |Entries(m)| - k) + (Indent(ind) + "}"))
    case _ => false
  }

  /**
    The printed entry `k` of `v` ends at `e`: its separator and newline
    follow, then the later lines and the closing one.
  */
  predicate EntryEndsAt(v: Value, ind: nat, k: nat, buf: string, e: nat)
  {
    match v
    case Obj(m) =>
      && ValidMap(m) && EntriesPrintable(v, k + 1) && k < |Entries(m)|
      && e + 1 < |buf| && buf[e] == Separator(k + 1 == |Entries(m)|) && buf[e + 1] == '\n'
      && TextAt(buf, e + 2, RenderEntries(v, ind, k + 1, |Entries(m)| - (k + 1)) + (Indent(ind) + "}"))
    case _ => false
  }

  /** The layout of entry `k` of a printed map, as `EntryText` describes it. */
  lemma EntryLines(v: Value, ind: nat, k: nat, buf: string, p: nat)
    requires v.Obj? && k < |Entries(v.m)| && Plain(Entries(v.m)[k].0)
    requires TextAt(buf, p, RenderEntries(v, ind, k, |Entries(v.m)| - k) + (Indent(ind) + "}"))
    ensures var es := Entries(v.m);
      var key := es[k].0;
      var q := p + |Indent(ind + 1)|;
      var w := q + |key| + 4;
      var e := w + |Render(es[k].1, ind + 1)|;
      && Blank(buf, p, q) && TextAt(buf, q, "\"" + key + "\"")
      && buf[q + |key| + 2] == ':' && buf[q + |key| + 3] == ' '
      && TextAt(buf, w, Render(es[k].1, ind + 1))
      && e + 1 < |buf| && buf[e] == Separator(k + 1 == |es|) && buf[e + 1] == '\n'
      && TextAt(buf, e + 2, RenderEntries(v, ind, k + 1, |es| - (k + 1)) + (Indent(ind) + "}"))
      && |RenderEntries(v, ind, k, |es| - k) + (Indent(ind) + "}")|
         == e + 2 - p + |RenderEntries(v, ind, k + 1, |es| - (k + 1)) + (Indent(ind) + "}")|
  {
    var es := Entries(v.m);
    EntryLayout(v, ind, k);
    EntryText(buf, p, ind, es[k].0, Render(es[k].1, ind + 1), k + 1 == |es|,
      RenderEntries(v, ind, k + 1, |es| - (k + 1)) + (Indent(ind) + "}"));
  }

  /** Where the value of entry `k` ends when the entry's line starts at `p`. */
  function EntryEnd(v: Value, ind: nat, k: nat, p: nat): nat
    requires v.Obj? && k < |Entries(v.m)|
  {
    p + |Indent(ind + 1)| + |Entries(v.m)[k].0| + 4 + |Render(Entries(v.m)[k].1, ind + 1)|
  }

  /**
    Entry `k` of the printed map `v` from the key's opening quote at `q` on:
    the key, the colon, the value after a space, then the separator, all
    after white space from the cursor `st`; the value ends at `e`.
  */
  predicate EntryReady(v: Value, ind: nat, k: nat, buf: string, st: LexState, q: nat, e: nat)
  {
    && v.Obj? && k < |Entries(v.m)|
    && var key := Entries(v.m)[k].0;
      && Plain(key) && Blank(buf, st.index, q) && TextAt(buf, q, "\"" + key + "\"")
      && q + |key| + 2 < |buf| && buf[q + |key| + 2] == ':'
      && ValueAt(Entries(v.m)[k].1, ind + 1, buf, q + |key| + 3, q + |key| + 4)
      && e == q + |key| + 4 + |Render(Entries(v.m)[k].1, ind + 1)| && EntryEndsAt(v, ind, k, buf, e)
  }

  /** The characters of entry `k` of a printed map, from the lexer's cursor on. */
  lemma EntryChars(v: Value, ind: nat, k: nat, buf: string, st: LexState, p: nat)
    requires EntriesAt(v, ind, k, buf, st, p)
    ensures EntryReady(v, ind, k, buf, st, p + |Indent(ind + 1)|, EntryEnd(v, ind, k, p))
    ensures |RenderEntries(v, ind, k, |Entries(v.m)| - k) + (Indent(ind) + "}")|
      == EntryEnd(v, ind, k, p) + 2 - p + |RenderEntries(v, ind, k + 1, |Entries(v.m)| - (k + 1)) + (Indent(ind) + "}")|
  {
    var es := Entries(v.m);
    EntrySmaller(v.m, |v.m.buckets|, k);
    assert Plain(es[k].0) && Printable(es[k].1) && EntriesPrintable(v, k + 1);
    EntryLines(v, ind, k, buf, p);
    BlankJoin(buf, st.index, p, p + |Indent(ind + 1)|);
    SeparatorChar(k + 1 == |es|);
  }

  /** The value of entry `k` of a map is part of the map. */
  lemma EntryBelow(v: Value, k: nat)
    requires v.Obj? && k < |Entries(v.m)|
    ensures Entries(v.m)[k].1 < v
  {
    EntrySmaller(v.m, |v.m.buckets|, k);
  }

  /** A value printed after a key, its colon and a blank parses back from the token after the colon. */
  lemma ValueAfterKey(buf: string, st: LexState, tok: Token, q: nat, key: string, v: Value, ind: nat, e: nat)
    requires Blank(buf, st.index, q) && TextAt(buf, q, "\"" + key + "\"") && Plain(key)
    requires q + |key| + 2 < |buf| && buf[q + |key| + 2] == ':'
    requires ValueAt(v, ind, buf, q + |key| + 3, q + |key| + 4)
    requires e == q + |key| + 4 + |Render(v, ind)|
    ensures var r := Lex(buf, st, tok);
      var ac := AfterColon(buf, st, tok);
      && r.token.kind == StringLit && Extract(buf, r.token) == key && '\0' !in key
      && Lex(buf, r.state, r.token).token.kind == MapSep
      && ParsesTo(buf, ac.state, ac.token, v, e)
    decreases v, 3
  {
    EntryHead(buf, st, tok, q, key);
    var ac := AfterColon(buf, st, tok);
    ValueRoundTrip(v, ind, buf, ac.state, ac.token, q + |key| + 4);
  }

  /** After the value of the last entry of a printed map come the closing line and the brace. */
  lemma EntryNextLast(v: Value, ind: nat, k: nat, buf: string, st: LexState, tok: Token, e: nat)
    requires EntryEndsAt(v, ind, k, buf, e) && ParsesTo(buf, st, tok, Entries(v.m)[k].1, e)
    requires k + 1 == |Entries(v.m)|
    ensures AfterValue(buf, st, tok).token.kind == MapClose
    ensures AfterValue(buf, st, tok).state.index
      == e + 2 + |RenderEntries(v, ind, k + 1, |Entries(v.m)| - (k + 1)) + (Indent(ind) + "}")|
  {
    var es := Entries(v.m);
    SeparatorChar(true);
    assert RenderEntries(v, ind, k + 1, |es| - (k + 1)) == "";
    assert RenderEntries(v, ind, k + 1, |es| - (k + 1)) + (Indent(ind) + "}") == Indent(ind) + "}";
    ClosingLine(buf, e, ind, '}');
    AfterValueAt(buf, st, tok, es[k].1, e, e + 2 + |Indent(ind)|);
  }

  /** After the value of any other entry of a printed map come a comma and the next entry's line. */
  lemma EntryNextMore(v: Value, ind: nat, k: nat, buf: string, st: LexState, tok: Token, e: nat)
    requires EntryEndsAt(v, ind, k, buf, e) && ParsesTo(buf, st, tok, Entries(v.m)[k].1, e)
    requires k + 1 < |Entries(v.m)|
    ensures AfterValue(buf, st, tok).token.kind == Sep
    ensures EntriesAt(v, ind, k + 1, buf, AfterValue(buf, st, tok).state, e + 2)
  {
    SeparatorChar(false);
    AfterValueAt(buf, st, tok, Entries(v.m)[k].1, e, e);
    NewlineBlank(buf, e + 1);
  }

  /**
    The entries `k ..` of a printed map, followed by the closing line, parse
    back: each is inserted in turn into the map `m` built so far.
  */
  lemma {:induction false} EntriesRoundTrip(v: Value, ind: nat, k: nat, buf: string, st: LexState, tok: Token, p: nat, m: MapVal)
    requires EntriesAt(v, ind, k, buf, st, p)
    requires tok.kind == Invalid || tok.kind == Sep
    ensures ParseMap(buf, st, tok, m).Parsed?
    ensures ParseMap(buf, st, tok, m).value == Obj(InsertFrom(m, Entries(v.m), k))
    ensures ParseMap(buf, st, tok, m).state.index
      == p + |RenderEntries(v, ind, k, |Entries(v.m)| - k) + (Indent(ind) + "}")|
    decreases v, 1, |Entries(v.m)| - k, 3
  {
    if k + 1 == |Entries(v.m)| {
      EntryLast(v, ind, k, buf, st, tok, p, m);
    } else {
      var n, q, m' := EntryMore(v, ind, k, buf, st, tok, p, m);
      EntriesRoundTrip(v, ind, k + 1, buf, n.state, n.token, q, m');
    }
  }

  /**
    Entry `k` of a printed map, its line starting at `p`: the map loop reads
    the key, the colon and the value, which ends at `EntryEnd`.
  */
  lemma EntryRead(v: Value, ind: nat, k: nat, buf: string, st: LexState, tok: Token, p: nat)
    requires EntriesAt(v, ind, k, buf, st, p)
    ensures var r := Lex(buf, st, tok);
      && r.token.kind == StringLit && Extract(buf, r.token) == Entries(v.m)[k].0 && '\0' !in Entries(v.m)[k].0
      && Lex(buf, r.state, r.token).token.kind == MapSep
    ensures ParsesTo(buf, AfterColon(buf, st, tok).state, AfterColon(buf, st, tok).token, Entries(v.m)[k].1, EntryEnd(v, ind, k, p))
    ensures EntryEndsAt(v, ind, k, buf, EntryEnd(v, ind, k, p))
    ensures |RenderEntries(v, ind, k, |Entries(v.m)| - k) + (Indent(ind) + "}")|
      == EntryEnd(v, ind, k, p) + 2 - p + |RenderEntries(v, ind, k + 1, |Entries(v.m)| - (k + 1)) + (Indent(ind) + "}")|
    decreases v, 1, |Entries(v.m)| - k, 0
  {
    var es := Entries(v.m);
    EntryChars(v, ind, k, buf, st, p);
    EntryBelow(v, k);
    ValueAfterKey(buf, st, tok, p + |Indent(ind + 1)|, es[k].0, es[k].1, ind + 1, EntryEnd(v, ind, k, p));
  }

  /**
    Entry `k` of a printed map that is not the last: the map loop reads it,
    and after its value comes a comma and the next entry's line.
  */
  lemma EntryReadMore(v: Value, ind: nat, k: nat, buf: string, st: LexState, tok: Token, p: nat)
    requires EntriesAt(v, ind, k, buf, st, p) && k + 1 < |Entries(v.m)|
    ensures var r := Lex(buf, st, tok);
      && r.token.kind == StringLit && Extract(buf, r.token) == Entries(v.m)[k].0 && '\0' !in Entries(v.m)[k].0
      && Lex(buf, r.state, r.token).token.kind == MapSep
    ensures ParsesTo(buf, AfterColon(buf, st, tok).state, AfterColon(buf, st, tok).token, Entries(v.m)[k].1, EntryEnd(v, ind, k, p))
    ensures AfterValue(buf, AfterColon(buf, st, tok).state, AfterColon(buf, st, tok).token).token.kind == Sep
    ensures EntriesAt(v, ind, k + 1, buf, AfterValue(buf, AfterColon(buf, st, tok).state, AfterColon(buf, st, tok).token).state,
      EntryEnd(v, ind, k, p) + 2)
    ensures |RenderEntries(v, ind, k, |Entries(v.m)| - k) + (Indent(ind) + "}")|
      == EntryEnd(v, ind, k, p) + 2 - p + |RenderEntries(v, ind, k + 1, |Entries(v.m)| - (k + 1)) + (Indent(ind) + "}")|
    decreases v, 1, |Entries(v.m)| - k, 1
  {
    EntryRead(v, ind, k, buf, st, tok, p);
    var ac := AfterColon(buf, st, tok);
    EntryNextMore(v, ind, k, buf, ac.state, ac.token, EntryEnd(v, ind, k, p));
  }

  /**
    The last pass of the map loop over a printed map: the last entry is
    inserted into `m` and the parser stops after the closing brace.
  */
  lemma EntryLast(v: Value, ind: nat, k: nat, buf: string, st: LexState, tok: Token, p: nat, m: MapVal)
    requires EntriesAt(v, ind, k, buf, st, p) && k + 1 == |Entries(v.m)|
    requires tok.kind == Invalid || tok.kind == Sep
    ensures ParseMap(buf, st, tok, m).Parsed?
    ensures ParseMap(buf, st, tok, m).value == Obj(InsertFrom(m, Entries(v.m), k))
    ensures ParseMap(buf, st, tok, m).state.index
      == p + |RenderEntries(v, ind, k, |Entries(v.m)| - k) + (Indent(ind) + "}")|
    decreases v, 1, |Entries(v.m)| - k, 2
  {
    var es := Entries(v.m);
    var e := EntryEnd(v, ind, k, p);
    EntryRead(v, ind, k, buf, st, tok, p);
    var ac := AfterColon(buf, st, tok);
    EntryNextLast(v, ind, k, buf, ac.state, ac.token, e);
    MapStep(buf, st, tok, m, es[k].0, es[k].1, e);
    InsertFromLast(m, es, k);
  }

  /**
    Any other pass of the map loop over a printed map: entry `k` is inserted
    into `m`, giving `m'`, and the parser goes on with the token `n` after
    the comma and the next entry's line at `q`.
  */
  lemma EntryMore(v: Value, ind: nat, k: nat, buf: string, st: LexState, tok: Token, p: nat, m: MapVal)
    returns (n: Lexed, q: nat, m': MapVal)
    requires EntriesAt(v, ind, k, buf, st, p) && k + 1 < |Entries(v.m)|
    requires tok.kind == Invalid || tok.kind == Sep
    ensures n.token.kind == Sep && EntriesAt(v, ind, k + 1, buf, n.state, q)
    ensures ParseMap(buf, st, tok, m) == ParseMap(buf, n.state, n.token, m')
    ensures InsertFrom(m, Entries(v.m), k) == InsertFrom(m', Entries(v.m), k + 1)
    ensures p + |RenderEntries(v, ind, k, |Entries(v.m)| - k) + (Indent(ind) + "}")|
      == q + |RenderEntries(v, ind, k + 1, |Entries(v.m)| - (k + 1)) + (Indent(ind) + "}")|
    decreases v, 1, |Entries(v.m)| - k, 2
  {
    var es := Entries(v.m);
    var e := EntryEnd(v, ind, k, p);
    EntryReadMore(v, ind, k, buf, st, tok, p);
    MapStep(buf, st, tok, m, es[k].0, es[k].1, e);
    var ac := AfterColon(buf, st, tok);
    n := AfterValue(buf, ac.state, ac.token);
    q := e + 2;
    m' := MapInsert(m, es[k].0, es[k].1);
  }

  /** The map `m` with the entries `k ..` of `es` inserted in turn. */
  function InsertFrom(m: MapVal, es: seq<(string, Value)>, k: nat): MapVal
    decreases |es| - k
  {
    if k >= |es| then m else InsertFrom(MapInsert(m, es[k].0, es[k].1), es, k + 1)
  }

  /** Inserting from the last index on inserts that one entry. */
  lemma InsertFromLast(m: MapVal, es: seq<(string, Value)>, k: nat)
    requires k + 1 == |es|
    ensures InsertFrom(m, es, k) == MapInsert(m, es[k].0, es[k].1)
  {
    assert InsertFrom(MapInsert(m, es[k].0, es[k].1), es, k + 1) == MapInsert(m, es[k].0, es[k].1);
  }

  /** Inserting from index `k` on is inserting the suffix of `es` that starts at `k`. */
  lemma {:induction false} InsertFromSuffix(m: MapVal, es: seq<(string, Value)>, k: nat)
    requires k <= |es|
    ensures InsertFrom(m, es, k) == InsertAll(m, es[k..])
    decreases |es| - k
  {
    if k < |es| {
      InsertFromSuffix(MapInsert(m, es[k].0, es[k].1), es, k + 1);
      assert es[k..][0] == es[k];
      assert es[k..][1..] == es[k + 1..];
    }
  }

  /** Inserting every entry of `es` into the empty map, by index or by suffix, agrees. */
  lemma InsertFromAll(es: seq<(string, Value)>)
    ensures InsertFrom(EmptyMap(), es, 0) == InsertAll(EmptyMap(), es)
  {
    InsertFromSuffix(EmptyMap(), es, 0);
    assert es[0..] == es;
  }

  /**
    Printing an array or a map and parsing the text gives back the same
    value: equal items in equal order, equal chains and the same size.
  */
  lemma RoundTrip(v: Value)
    requires (v.Arr? || v.Obj?) && Printable(v)
    ensures Parse(Render(v, 0)) == Some(v)
  {
    var buf := Render(v, 0);
    assert TextAt(buf, 0, buf);
    assert Blank(buf, 0, 0);
    CharAtText(buf, 0, buf, 0);
    assert buf[0] == '[' || buf[0] == '{';
    LexPunct(buf, Start(), Unset, 0);
    var r := Lex(buf, Start(), Unset);
    if v.Arr? {
      ArrayRoundTrip(v, 0, buf, r.state, 0);
      LexEnd(buf, ParseArray(buf, r.state, Unset, []).state, r.token);
    } else {
      MapRoundTrip(v, 0, buf, r.state, 0);
      LexEnd(buf, ParseMap(buf, r.state, Unset, EmptyMap()).state, r.token);
    }
  }
}
