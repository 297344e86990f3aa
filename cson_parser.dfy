/**
  The cson parser: recursive descent over the lexer's tokens. The top level
  must be an array or a map, followed by nothing but the end of the buffer.

  Each parsing routine has its own token variable; a lexer call that fails
  before forming a token leaves that variable as it was, and the routines
  inspect only the token's kind, so the state threaded here is the token
  as well as the lexer. The variable starts uninitialised in C, so when the
  very first call of a container routine fails (an unclosed string), the
  kind read is indeterminate; here it is Unset, whose kind no routine
  accepts, so that container is rejected.
*/
module CsonParser {
  import opened CsonValue
  import opened CsonLexer

  /** The outcome of a parsing routine: the value built and the lexer after it, or failure. */
  datatype Parsed = Parsed(value: Value, state: LexState) | Rejected

  /* ---------- Integer literals ---------- */

  const MaxInt64: int := 0x7FFF_FFFF_FFFF_FFFF
  const MinInt64: int := -0x8000_0000_0000_0000

  /** `isspace` in the C locale. */
  predicate IsSpace(c: char)
  {
    c == ' ' || c == '\t' || c == '\n' || c == 11 as char || c == 12 as char || c == '\r'
  }

  function SkipSpaces(s: string): (r: string)
    ensures |r| <= |s| && r == s[|s| - |r|..]
    ensures r != [] ==> !IsSpace(r[0])
  {
    if s != [] && IsSpace(s[0]) then SkipSpaces(s[1..]) else s
  }

  /** The number a string of decimal digits denotes. */
  function DecimalValue(ds: string): nat
    requires forall i :: 0 <= i < |ds| ==> IsDigit(ds[i])
  {
    if ds == [] then 0
    else
      assert IsDigit(ds[|ds| - 1]);
      DecimalValue(ds[..|ds| - 1]) * 10 + (ds[|ds| - 1] as int - '0' as int)
  }

  /**
    `atoll` as the C library implements it: leading white space, an optional
    sign, the longest run of digits; out-of-range values saturate at the
    bounds of `long long`.
  */
  function Atoll(s: string): (r: int)
    ensures MinInt64 <= r <= MaxInt64
  {
    var t := SkipSpaces(s);
    var i := if t != [] && (t[0] == '-' || t[0] == '+') then 1 else 0;
    var j := DigitsEnd(t, i);
    DigitsRun(t, i);
    var ds := t[i..j];
    assert forall k :: 0 <= k < |ds| ==> ds[k] == t[i + k];
    var n: int := if i == 1 && t[0] == '-' then -(DecimalValue(ds) as int) else DecimalValue(ds);
    if n > MaxInt64 then MaxInt64 else if n < MinInt64 then MinInt64 else n
  }

  /** The `int32_t` `cson_new_int` stores for an integer literal. */
  function IntValue(text: string): int32
  {
    WrapInt32(Atoll(text))
  }

  /* ---------- The parsing routines ---------- */

  /**
    `cson__parse_value`: the value a value token starts. A container is
    parsed by its own routine, which begins with an unset token variable.
  */
  function ParseValue(buf: string, st: LexState, tok: Token): (r: Parsed)
    requires IsValueToken(tok.kind)
    ensures r.Parsed? ==> r.state.index >= st.index
    decreases |buf| + 1 - st.index, 1
  {
    var text := Extract(buf, tok);
    match tok.kind
    case ArrayOpen => ParseArray(buf, st, Unset, [])
    case MapOpen => ParseMap(buf, st, Unset, EmptyMap())
    case IntLit => Parsed(Int(IntValue(text)), st)
    case FloatLit => Parsed(Float(text), st)
    case StringLit => Parsed(Str(CString(text)), st)
    case TrueLit => Parsed(Bool(true), st)
    case FalseLit => Parsed(Bool(false), st)
    case NullLit => Parsed(Null, st)
  }

  /**
    The loop of `cson__parse_array` from an iteration's start: `tok` is the
    routine's token variable, `items` what was pushed so far. A closing
    bracket is accepted right after the opening one or after an item, never
    after a comma.
  */
  function ParseArray(buf: string, st: LexState, tok: Token, items: seq<Value>): (r: Parsed)
    requires tok.kind == Invalid || tok.kind == Sep
    ensures r.Parsed? ==> r.state.index > st.index && r.value.Arr?
    decreases |buf| + 1 - st.index, 0
  {
    var r := Lex(buf, st, tok);
    if !(IsValueToken(r.token.kind) || r.token.kind == ArrayClose) then Rejected
    else if r.token.kind == ArrayClose then
      if |items| > 0 then Rejected else Parsed(Arr(items), r.state)
    else
      var v := ParseValue(buf, r.state, r.token);
      if v.Rejected? then Rejected
      else
        var r2 := Lex(buf, v.state, r.token);
        if r2.token.kind == Sep then ParseArray(buf, r2.state, r2.token, items + [v.value])
        else if r2.token.kind == ArrayClose then Parsed(Arr(items + [v.value]), r2.state)
        else Rejected
  }

  /**
    The loop of `cson__parse_map` from an iteration's start: a string key, a
    colon, a value, then a comma or the closing brace. A closing brace in
    place of a key is accepted only while the map is empty. Each entry is
    inserted as `cson_map_insert` does, so a later duplicate key replaces
    the earlier value.
  */
  function ParseMap(buf: string, st: LexState, tok: Token, m: MapVal): (r: Parsed)
    requires tok.kind == Invalid || tok.kind == Sep
    ensures r.Parsed? ==> r.state.index > st.index && r.value.Obj?
    decreases |buf| + 1 - st.index, 0
  {
    var r := Lex(buf, st, tok);
    if r.token.kind == MapClose then
      if m.size > 0 then Rejected else Parsed(Obj(m), r.state)
    else if r.token.kind != StringLit then Rejected
    else
      var key := Extract(buf, r.token);
      var r2 := Lex(buf, r.state, r.token);
      if r2.token.kind != MapSep then Rejected
      else
        var r3 := Lex(buf, r2.state, r2.token);
        if !IsValueToken(r3.token.kind) then Rejected
        else
          var v := ParseValue(buf, r3.state, r3.token);
          if v.Rejected? then Rejected
          else
            var m' := MapInsert(m, CString(key), v.value);
            var r4 := Lex(buf, v.state, r3.token);
            if r4.token.kind == Sep then ParseMap(buf, r4.state, r4.token, m')
            else if r4.token.kind == MapClose then Parsed(Obj(m'), r4.state)
            else Rejected
  }

  /**
    `cson_parse_buffer`: None for an empty buffer, a first token that is not
    `[` or `{`, a failed container, or anything but the end after it.
  */
  function Parse(buf: string): (r: Option<Value>)
  {
    if |buf| == 0 then None
    else
      var r := Lex(buf, Start(), Unset);
      if !r.ok then None
      else
        var p :=
          if r.token.kind == ArrayOpen then ParseArray(buf, r.state, Unset, [])
          else if r.token.kind == MapOpen then ParseMap(buf, r.state, Unset, EmptyMap())
          else Rejected;
        if p.Rejected? then None
        else if Lex(buf, p.state, r.token).token.kind != End then None
        else Some(p.value)
  }

  /**
    Only an array or a map is ever returned, and only from a buffer whose
    first character after white space opens one.
  */
  lemma ParseTopLevel(buf: string)
    requires Parse(buf).Some?
    ensures Parse(buf).value.Arr? || Parse(buf).value.Obj?
    ensures var at := Trimmed(buf, Start()).index;
      at < |buf| && (buf[at] == '[' || buf[at] == '{')
      && forall i :: 0 <= i < at ==> IsWhitespace(buf[i])
  {
    var r := Lex(buf, Start(), Unset);
    assert r.ok && r.token.kind in {ArrayOpen, MapOpen};
    LexOpening(buf, Start(), Unset);
  }

  /** A successful call yielding `[` or `{` found that character after white space. */
  lemma LexOpening(buf: string, st: LexState, prev: Token)
    requires st.index <= |buf|
    requires Lex(buf, st, prev).ok && Lex(buf, st, prev).token.kind in {ArrayOpen, MapOpen}
    ensures var at := Trimmed(buf, st).index;
      at < |buf| && (buf[at] == '[' || buf[at] == '{')
      && forall i :: st.index <= i < at ==> IsWhitespace(buf[i])
  {
    var s := Trimmed(buf, st);
    var c := CharAt(buf, s.index);
    assert IsStructural(c);
    TrimmedSkipsWhitespace(buf, st);
    forall i | st.index <= i < s.index
      ensures IsWhitespace(buf[i])
    {
      assert IsWhitespace(CharAt(buf, i));
    }
  }

  /* ---------- The routines on a lexer object ---------- */

  /** A method's result and lexer agree with what the parsing function computes. */
  predicate Agrees(p: Parsed, r: Option<Value>, st: LexState)
  {
    (r.Some? <==> p.Parsed?) && (p.Parsed? ==> r.value == p.value && st == p.state)
  }

  /** `cson__parse_value` on a lexer; None where the C function returns false. */
  method ParseValueFrom(lexer: Lexer, tok: Token) returns (r: Option<Value>)
    requires IsValueToken(tok.kind)
    modifies lexer
    ensures Agrees(ParseValue(lexer.buffer, old(lexer.State()), tok), r, lexer.State())
    decreases |lexer.buffer| + 1 - lexer.index, 1
  {
    var text := Extract(lexer.buffer, tok);
    match tok.kind {
      case ArrayOpen =>
        r := ParseArrayFrom(lexer);
      case MapOpen =>
        r := ParseMapFrom(lexer);
      case IntLit =>
        r := Some(Int(IntValue(text)));
      case FloatLit =>
        r := Some(Float(text));
      case StringLit =>
        r := Some(Str(CString(text)));
      case TrueLit =>
        r := Some(Bool(true));
      case FalseLit =>
        r := Some(Bool(false));
      case NullLit =>
        r := Some(Null);
    }
  }

  /** `cson__parse_array` on a lexer standing after `[`. */
  method ParseArrayFrom(lexer: Lexer) returns (r: Option<Value>)
    modifies lexer
    ensures Agrees(ParseArray(lexer.buffer, old(lexer.State()), Unset, []), r, lexer.State())
    decreases |lexer.buffer| + 1 - lexer.index, 0
  {
    ghost var spec := ParseArray(lexer.buffer, lexer.State(), Unset, []);
    ghost var start := lexer.index;
    var token := Unset;
    var items: seq<Value> := [];
    while true
      invariant token.kind == Invalid || token.kind == Sep
      invariant ParseArray(lexer.buffer, lexer.State(), token, items) == spec
      invariant lexer.index >= start
      decreases |lexer.buffer| + 1 - lexer.index
    {
      ghost var before := lexer.State();
      var ok;
      ok, token := lexer.Next(token);
      if !(IsValueToken(token.kind) || token.kind == ArrayClose) {
        return None;
      }
      if token.kind == ArrayClose {
        if |items| > 0 {
          return None;
        }
        return Some(Arr(items));
      }
      var v := ParseValueFrom(lexer, token);
      if v.None? {
        return None;
      }
      items := items + [v.value];
      ok, token := lexer.Next(token);
      if token.kind == ArrayClose {
        return Some(Arr(items));
      }
      if token.kind != Sep {
        return None;
      }
    }
  }

  /** `cson__parse_map` on a lexer standing after `{`. */
  method ParseMapFrom(lexer: Lexer) returns (r: Option<Value>)
    modifies lexer
    ensures Agrees(ParseMap(lexer.buffer, old(lexer.State()), Unset, EmptyMap()), r, lexer.State())
    decreases |lexer.buffer| + 1 - lexer.index, 0
  {
    ghost var spec := ParseMap(lexer.buffer, lexer.State(), Unset, EmptyMap());
    ghost var start := lexer.index;
    var token := Unset;
    var m := EmptyMap();
    while true
      invariant token.kind == Invalid || token.kind == Sep
      invariant ParseMap(lexer.buffer, lexer.State(), token, m) == spec
      invariant lexer.index >= start
      decreases |lexer.buffer| + 1 - lexer.index
    {
      var ok;
      ok, token := lexer.Next(token);
      if token.kind == MapClose {
        if m.size > 0 {
          return None;
        }
        return Some(Obj(m));
      }
      if token.kind != StringLit {
        return None;
      }
      var key := Extract(lexer.buffer, token);
      ok, token := lexer.Next(token);
      if token.kind != MapSep {
        return None;
      }
      ok, token := lexer.Next(token);
      if !IsValueToken(token.kind) {
        return None;
      }
      var v := ParseValueFrom(lexer, token);
      if v.None? {
        return None;
      }
      m := MapInsert(m, CString(key), v.value);
      ok, token := lexer.Next(token);
      if token.kind == MapClose {
        return Some(Obj(m));
      }
      if token.kind != Sep {
        return None;
      }
    }
  }

  /** `cson_parse_buffer`. */
  method ParseBuffer(buf: string) returns (r: Option<Value>)
    ensures r == Parse(buf)
  {
    if |buf| == 0 {
      return None;
    }
    var lexer := new Lexer(buf);
    var ok, token := lexer.Next(Unset);
    if !ok {
      return None;
    }
    if token.kind == ArrayOpen {
      r := ParseArrayFrom(lexer);
    } else if token.kind == MapOpen {
      r := ParseMapFrom(lexer);
    } else {
      return None;
    }
    if r.Some? {
      var t;
      ok, t := lexer.Next(token);
      if t.kind != End {
        return None;
      }
    }
  }
}
