/**
  Small documents the parser accepts or rejects, for the rules
  `cson_parse_buffer` and the container routines enforce: empty containers
  are allowed, a comma right before a closing bracket is not, nothing may
  follow the top-level value, and a repeated map key keeps its last value.
*/
module CsonParserCases {
  import opened CsonValue
  import opened CsonLexer
  import opened CsonParser
  import opened CsonWriter
  import opened CsonRoundTrip

  /** `{}` and `[]` are documents of their own: an empty map and an empty array. */
  lemma EmptyContainers()
    ensures Parse("[]") == Some(Arr([]))
    ensures Parse("{}") == Some(Obj(EmptyMap()))
  {
    EmptyDocument("[]");
    EmptyDocument("{}");
  }

  lemma EmptyDocument(a: string)
    requires a == "[]" || a == "{}"
    ensures Parse(a) == Some(if a[0] == '[' then Arr([]) else Obj(EmptyMap()))
  {
    LexPunct(a, Start(), Unset, 0);
    var r := Lex(a, Start(), Unset);
    LexPunct(a, r.state, Unset, 1);
    var p := if a[0] == '[' then ParseArray(a, r.state, Unset, []) else ParseMap(a, r.state, Unset, EmptyMap());
    assert p.Parsed? && p.state.index == 2;
    LexEnd(a, p.state, r.token);
  }

  /**
    The rule of the array loop: a closing bracket where an item should
    start, once an item has been pushed, is rejected.
  */
  lemma ArrayCloseAfterItems(buf: string, st: LexState, tok: Token, items: seq<Value>)
    requires tok.kind == Invalid || tok.kind == Sep
    requires |items| > 0 && Lex(buf, st, tok).token.kind == ArrayClose
    ensures ParseArray(buf, st, tok, items) == Rejected
  {
  }

  /**
    A trailing comma in an array: an item, then `,` and `]` with only white
    space between them, makes the array loop fail, whatever came before.
  */
  lemma TrailingCommaRejected(buf: string, st: LexState, tok: Token, items: seq<Value>, v: Value, e: nat, comma: nat, close: nat)
    requires tok.kind == Invalid || tok.kind == Sep
    requires ParsesTo(buf, st, tok, v, e)
    requires Blank(buf, e, comma) && comma < |buf| && buf[comma] == ','
    requires Blank(buf, comma + 1, close) && close < |buf| && buf[close] == ']'
    ensures ParseArray(buf, st, tok, items) == Rejected
  {
    ArrayStep(buf, st, tok, items, v, e);
    AfterValueAt(buf, st, tok, v, e, comma);
    var n := AfterValue(buf, st, tok);
    LexPunct(buf, n.state, n.token, close);
    ArrayCloseAfterItems(buf, n.state, n.token, items + [v]);
  }

  /**
    The rule of the map loop: a closing brace where a key should start,
    once the map holds an entry, is rejected.
  */
  lemma MapCloseAfterEntries(buf: string, st: LexState, tok: Token, m: MapVal)
    requires tok.kind == Invalid || tok.kind == Sep
    requires m.size > 0 && Lex(buf, st, tok).token.kind == MapClose
    ensures ParseMap(buf, st, tok, m) == Rejected
  {
  }

  /**
    A trailing comma in a map: an entry, then `,` and `}` with only white
    space between them, makes the map loop fail, whatever the map held.
  */
  lemma MapTrailingCommaRejected(buf: string, st: LexState, tok: Token, m: MapVal, key: string, v: Value, e: nat, comma: nat, close: nat)
    requires ValidMap(m)
    requires tok.kind == Invalid || tok.kind == Sep
    requires var r := Lex(buf, st, tok);
      && r.token.kind == StringLit && Extract(buf, r.token) == key && '\0' !in key
      && Lex(buf, r.state, r.token).token.kind == MapSep
    requires var ac := AfterColon(buf, st, tok); ParsesTo(buf, ac.state, ac.token, v, e)
    requires Blank(buf, e, comma) && comma < |buf| && buf[comma] == ','
    requires Blank(buf, comma + 1, close) && close < |buf| && buf[close] == '}'
    ensures ParseMap(buf, st, tok, m) == Rejected
  {
    MapStep(buf, st, tok, m, key, v, e);
    var ac := AfterColon(buf, st, tok);
    AfterValueAt(buf, ac.state, ac.token, v, e, comma);
    var n := AfterValue(buf, ac.state, ac.token);
    LexPunct(buf, n.state, n.token, close);
    var m' := MapInsert(m, key, v);
    InsertSpec(m, key, v);
    RemoveSpec(m', key);
    MapCloseAfterEntries(buf, n.state, n.token, m');
  }

  /**
    What follows a value from `st` on: white space only, then the end of
    the buffer or a NUL or EOF byte.
  */
  predicate AtEnd(buf: string, st: LexState)
  {
    var at := Trimmed(buf, st).index;
    CharAt(buf, at) == '\0' || CharAt(buf, at) == Eof
  }

  /**
    Nothing may follow the top-level value: a buffer is accepted exactly
    when its first token opens a container that parses and only white
    space and the end come after it, and then its value is that container.
  */
  lemma TrailingTokensRejected(buf: string)
    ensures var r := Lex(buf, Start(), Unset);
      var p := if r.token.kind == ArrayOpen then ParseArray(buf, r.state, Unset, [])
               else if r.token.kind == MapOpen then ParseMap(buf, r.state, Unset, EmptyMap())
               else Rejected;
      && (Parse(buf).Some? <==> r.ok && p.Parsed? && p.state.index <= |buf| && AtEnd(buf, p.state))
      && (Parse(buf).Some? ==> Parse(buf).value == p.value)
  {
    var r := Lex(buf, Start(), Unset);
    if r.ok && r.token.kind in {ArrayOpen, MapOpen} {
      var p := if r.token.kind == ArrayOpen then ParseArray(buf, r.state, Unset, [])
               else ParseMap(buf, r.state, Unset, EmptyMap());
      if p.Parsed? && p.state.index <= |buf| {
        EndToken(buf, p.state, r.token);
      }
    }
  }

  /** Lexing from inside the buffer yields End exactly at the end, a NUL or an EOF byte. */
  lemma EndToken(buf: string, st: LexState, prev: Token)
    requires st.index <= |buf| && prev.kind != End
    ensures Lex(buf, st, prev).token.kind == End <==> AtEnd(buf, st)
  {
  }

  /**
    A key given twice keeps the value given last: when the entry loop of
    `parse_map` reads a key the map already holds, `cson_map_insert`
    overwrites it, so the map keeps its size, the key now maps to the new
    value, and every other key is left as it was.
  */
  lemma DuplicateKeyLastWins(buf: string, st: LexState, tok: Token, m: MapVal, key: string, v: Value, e: nat)
    requires ValidMap(m) && HasKey(m, key)
    requires tok.kind == Invalid || tok.kind == Sep
    requires var r := Lex(buf, st, tok);
      && r.token.kind == StringLit && Extract(buf, r.token) == key && '\0' !in key
      && Lex(buf, r.state, r.token).token.kind == MapSep
    requires var ac := AfterColon(buf, st, tok); ParsesTo(buf, ac.state, ac.token, v, e)
    ensures var ac := AfterColon(buf, st, tok);
      var n := AfterValue(buf, ac.state, ac.token);
      var m' := MapInsert(m, key, v);
      && ParseMap(buf, st, tok, m) ==
           (if n.token.kind == Sep then ParseMap(buf, n.state, n.token, m')
            else if n.token.kind == MapClose then Parsed(Obj(m'), n.state)
            else Rejected)
      && ValidMap(m') && m'.size == m.size && MapGet(m', key) == Some(v)
      && forall k :: k != key ==> MapGet(m', k) == MapGet(m, k)
  {
    MapStep(buf, st, tok, m, key, v, e);
    InsertSpec(m, key, v);
  }
}
