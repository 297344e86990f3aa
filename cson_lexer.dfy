/**
  The cson lexer: a cursor over a byte buffer that hands out one token per
  call. Characters stand for the buffer's bytes; the byte one past the end
  of the buffer reads as NUL, as the buffers `cson_read` allocates end in one.
*/
module CsonLexer {
  import opened CsonValue

  /** `CsonTokenType`; the kinds of multi-character literals carry a `Lit` suffix. */
  datatype TokenType =
    | MapOpen | MapClose | ArrayOpen | ArrayClose | Sep | MapSep
    | StringLit | IntLit | FloatLit | TrueLit | FalseLit | NullLit
    | Invalid | End

  /** `CSON_VALUE_TOKENS`: the kinds a value may start with. */
  predicate IsValueToken(k: TokenType)
  {
    k == ArrayOpen || k == MapOpen || k == IntLit || k == FloatLit
    || k == TrueLit || k == FalseLit || k == NullLit || k == StringLit
  }

  /** `CsonLoc` without the file name: 1-based row and column. */
  datatype Loc = Loc(row: nat, column: nat)

  /** The mutable part of a `CsonLexer`: the read index and the location it stands at. */
  datatype LexState = LexState(index: nat, loc: Loc)

  /** A token: its kind, the half-open range `[start, end)` of its text, where it starts. */
  datatype Token = Token(kind: TokenType, start: nat, end: nat, loc: Loc)

  /** The result of `cson_lex_next`: its return value, the token variable, the lexer. */
  datatype Lexed = Lexed(ok: bool, token: Token, state: LexState)

  /** `cson_lex_init`: index 0 at row 1, column 1. */
  function Start(): LexState
  {
    LexState(0, Loc(1, 1))
  }

  /**
    A token variable that nothing has written yet. Its kind is taken to be
    Invalid, a kind no caller accepts.
  */
  const Unset: Token := Token(Invalid, 0, 0, Loc(0, 0))

  /** `(char) EOF`: the byte 0xFF read through a signed `char`. */
  const Eof: char := '\U{FF}'

  /** `cson_lex_get_char`, with the terminating NUL one past the end. */
  function CharAt(buf: string, i: nat): char
  {
    if i < |buf| then buf[i] else '\0'
  }

  /** `cson_lex_is_whitespace`. */
  predicate IsWhitespace(c: char)
  {
    c == ' ' || c == '\n' || c == '\t'
  }

  /** `cson_lex_is_delimeter`: the one-character tokens and the whitespace. */
  predicate IsDelimiter(c: char)
  {
    IsStructural(c) || IsWhitespace(c)
  }

  /** The characters that are tokens on their own: `{ } [ ] , :`. */
  predicate IsStructural(c: char)
  {
    c == '{' || c == '}' || c == '[' || c == ']' || c == ',' || c == ':'
  }

  /** `cson_lex_check_line` and `index++`: a newline starts the next row. */
  function Forward(st: LexState, c: char): LexState
  {
    LexState(st.index + 1,
             if c == '\n' then Loc(st.loc.row + 1, 1) else Loc(st.loc.row, st.loc.column + 1))
  }

  /** `cson_lex_inc`: one column to the right. */
  function IncState(st: LexState): LexState
  {
    LexState(st.index + 1, Loc(st.loc.row, st.loc.column + 1))
  }

  /** `cson_lex_trim_left`: skip whitespace, at most up to the terminating NUL. */
  function Trimmed(buf: string, st: LexState): (r: LexState)
    ensures r.index >= st.index
    ensures st.index <= |buf| ==> r.index <= |buf| && !IsWhitespace(CharAt(buf, r.index))
    ensures st.index > |buf| ==> r == st
    decreases |buf| + 1 - st.index
  {
    if st.index <= |buf| && IsWhitespace(CharAt(buf, st.index)) then
      Trimmed(buf, Forward(st, CharAt(buf, st.index)))
    else st
  }

  /** Everything `cson_lex_trim_left` skips is whitespace. */
  lemma {:induction false} TrimmedSkipsWhitespace(buf: string, st: LexState)
    ensures forall i :: st.index <= i < Trimmed(buf, st).index ==> IsWhitespace(CharAt(buf, i))
    decreases |buf| + 1 - st.index
  {
    if st.index <= |buf| && IsWhitespace(CharAt(buf, st.index)) {
      TrimmedSkipsWhitespace(buf, Forward(st, CharAt(buf, st.index)));
    }
  }

  /**
    `cson_lex_find`: move to the next `c` inside the buffer. Found, the
    cursor stands on it; not found, at the end of the buffer.
  */
  function FindChar(buf: string, st: LexState, c: char): (r: (bool, LexState))
    ensures r.1.index >= st.index
    ensures r.0 ==> r.1.index < |buf| && buf[r.1.index] == c
    ensures !r.0 ==> r.1 == st || r.1.index == |buf|
    decreases |buf| - st.index
  {
    if st.index < |buf| then
      if buf[st.index] == c then (true, st) else FindChar(buf, Forward(st, buf[st.index]), c)
    else (false, st)
  }

  /** `cson_lex_find` stops at the first `c`: none lies between the start and the cursor. */
  lemma {:induction false} FindCharSkips(buf: string, st: LexState, c: char)
    ensures forall i :: st.index <= i < FindChar(buf, st, c).1.index && i < |buf| ==> buf[i] != c
    decreases |buf| - st.index
  {
    if st.index < |buf| && buf[st.index] != c {
      FindCharSkips(buf, Forward(st, buf[st.index]), c);
    }
  }

  /** The scan for the end of a multi-character literal: up to a delimiter or the end. */
  function LiteralEnd(buf: string, st: LexState): (r: LexState)
    ensures r.index >= st.index
    ensures st.index <= |buf| ==> r.index <= |buf|
    ensures r.index < |buf| ==> IsDelimiter(buf[r.index])
    decreases |buf| - st.index
  {
    if st.index < |buf| && !IsDelimiter(buf[st.index]) then
      LiteralEnd(buf, Forward(st, buf[st.index]))
    else st
  }

  /** A literal is a run of non-delimiters inside the buffer. */
  lemma {:induction false} LiteralEndSpan(buf: string, st: LexState)
    ensures forall i :: st.index <= i < LiteralEnd(buf, st).index ==> i < |buf| && !IsDelimiter(buf[i])
    decreases |buf| - st.index
  {
    if st.index < |buf| && !IsDelimiter(buf[st.index]) {
      LiteralEndSpan(buf, Forward(st, buf[st.index]));
    } else {
      assert LiteralEnd(buf, st) == st;
    }
  }

  /* ---------- Classifying literals ---------- */

  /**
    `memcmp(text, lit, |text|) == 0` for a C string literal `lit`: `text` is
    a prefix of `lit` followed by its NUL. Comparing more bytes than that
    would read past the literal; such a text is taken not to match.
  */
  predicate MatchesLiteral(text: string, lit: string)
  {
    |text| <= |lit| + 1 && text == (lit + "\0")[..|text|]
  }

  predicate IsDigit(c: char)
  {
    '0' <= c <= '9'
  }

  /** `cson_lex_is_int`: an optional sign, then digits only (possibly none). */
  predicate IsInt(text: string)
  {
    && |text| >= 1
    && var ds := if text[0] == '-' || text[0] == '+' then text[1..] else text;
       forall i :: 0 <= i < |ds| ==> IsDigit(ds[i])
  }

  /** The end of the run of digits starting at `i`. */
  function DigitsEnd(s: string, i: nat): (j: nat)
    requires i <= |s|
    ensures i <= j <= |s|
    ensures j < |s| ==> !IsDigit(s[j])
    decreases |s| - i
  {
    if i < |s| && IsDigit(s[i]) then DigitsEnd(s, i + 1) else i
  }

  /** The run `DigitsEnd` ends consists of digits. */
  lemma {:induction false} DigitsRun(s: string, i: nat)
    requires i <= |s|
    ensures forall k :: i <= k < DigitsEnd(s, i) ==> IsDigit(s[k])
    decreases |s| - i
  {
    if i < |s| && IsDigit(s[i]) {
      DigitsRun(s, i + 1);
    }
  }

  /** The end of an exponent `e[sign]digits` at `k`, or `k` when there is none. */
  function ExponentEnd(s: string, k: nat): (e: nat)
    requires k <= |s|
    ensures k <= e <= |s|
  {
    if k < |s| && (s[k] == 'e' || s[k] == 'E') then
      var m := if k + 1 < |s| && (s[k + 1] == '+' || s[k + 1] == '-') then k + 2 else k + 1;
      var n := DigitsEnd(s, m);
      if n > m then n else k
    else k
  }

  /**
    `cson_lex_is_float`: `strtod` reads the whole text as a decimal number:
    an optional sign, digits with an optional fraction (at least one digit
    in all), an optional exponent.
  */
  predicate IsFloat(text: string)
  {
    var i := if |text| > 0 && (text[0] == '+' || text[0] == '-') then 1 else 0;
    var j := DigitsEnd(text, i);
    var k := if j < |text| && text[j] == '.' then DigitsEnd(text, j + 1) else j;
    var digits := (j - i) + (if k > j then k - j - 1 else 0);
    digits > 0 && ExponentEnd(text, k) == |text|
  }

  /** The kind the default branch of `cson_lex_next` gives a literal, tried in source order. */
  function LiteralKind(text: string): TokenType
  {
    if MatchesLiteral(text, "true") then TrueLit
    else if MatchesLiteral(text, "false") then FalseLit
    else if MatchesLiteral(text, "null") then NullLit
    else if IsInt(text) then IntLit
    else if IsFloat(text) then FloatLit
    else Invalid
  }

  /**
    The keywords lex as themselves, and so does every non-empty prefix of
    them: `t`, `fal` and `nu` are literals too. A lone sign is an integer.
  */
  lemma LiteralKinds(text: string)
    ensures 0 < |text| <= 4 && text == "true"[..|text|] ==> LiteralKind(text) == TrueLit
    ensures 0 < |text| <= 5 && text == "false"[..|text|] ==> LiteralKind(text) == FalseLit
    ensures 0 < |text| <= 4 && text == "null"[..|text|] ==> LiteralKind(text) == NullLit
    ensures text == "-" || text == "+" ==> LiteralKind(text) == IntLit
  {
    if 0 < |text| <= 5 && text == "false"[..|text|] {
      assert text[0] == 'f';
      assert !MatchesLiteral(text, "true") by { assert (("true" + "\0")[..|text|])[0] == 't'; }
    }
    if 0 < |text| <= 4 && text == "null"[..|text|] {
      assert text[0] == 'n';
      assert !MatchesLiteral(text, "true") by { assert (("true" + "\0")[..|text|])[0] == 't'; }
      assert !MatchesLiteral(text, "false") by { assert (("false" + "\0")[..|text|])[0] == 'f'; }
    }
  }

  /** A literal of digits with an optional sign is an integer. */
  lemma SignedDigitsAreInt(sign: string, ds: string)
    requires sign == "" || sign == "-"
    requires |ds| > 0 && forall i :: 0 <= i < |ds| ==> IsDigit(ds[i])
    ensures LiteralKind(sign + ds) == IntLit
  {
    var text := sign + ds;
    assert !IsDigit('t') && !IsDigit('f') && !IsDigit('n');
    if sign == "" {
      assert text[0] == ds[0];
    } else {
      assert text[1..] == ds;
      assert text[0] == '-';
    }
  }

  /** The one-character token a punctuation character stands for. */
  function Punctuation(c: char): TokenType
  {
    match c
    case '{' => MapOpen
    case '}' => MapClose
    case '[' => ArrayOpen
    case ']' => ArrayClose
    case ',' => Sep
    case _ => MapSep
  }

  /* ---------- The next token ---------- */

  /**
    `cson_lex_next`. When it fails before a token is formed (the index is
    past the buffer, or a string is not closed) the token variable keeps
    what it held before, `prev`.
  */
  function Lex(buf: string, st: LexState, prev: Token): (r: Lexed)
    ensures r.state.index >= st.index
    ensures st.index > |buf| ==> r == Lexed(false, prev, st)
    ensures st.index <= |buf| ==> st.index < r.state.index <= |buf| + 1
  {
    if st.index > |buf| then Lexed(false, prev, st)
    else
      var s := Trimmed(buf, st);
      var at := s.index;
      var c := CharAt(buf, at);
      if IsStructural(c) then
        Lexed(true, Token(Punctuation(c), at, at + 1, s.loc), IncState(s))
      else if c == '"' then
        var f := FindChar(buf, IncState(s), '"');
        if !f.0 then Lexed(false, prev, f.1)
        else Lexed(true, Token(StringLit, at + 1, f.1.index, s.loc), IncState(f.1))
      else if c == '\0' || c == Eof then
        Lexed(false, Token(End, at, at + 1, s.loc), IncState(s))
      else
        var e := LiteralEnd(buf, s);
        var kind := LiteralKind(buf[at..e.index]);
        Lexed(kind != Invalid, Token(kind, at, e.index, s.loc), e)
  }

  /** The text of a token, clipped to the buffer. */
  function Text(buf: string, t: Token): (r: string)
  {
    var e := if t.end <= |buf| then t.end else |buf|;
    var s := if t.start <= e then t.start else e;
    buf[s..e]
  }

  /**
    What `cson_lex_next` promises about the token it forms. Every token
    starts after whitespace only. A successful call yields neither End nor
    Invalid and leaves the cursor inside the buffer; punctuation is the one
    character it stands for; a string is the text between two quotes with no
    quote inside; a literal is a longest run of non-delimiters of its kind.
    End is reported, and only it, at a NUL or EOF byte.
  */
  lemma NextSpec(buf: string, st: LexState, prev: Token)
    requires st.index <= |buf|
    ensures var r := Lex(buf, st, prev);
      var t := r.token;
      && (r.ok ==> r.state.index <= |buf| && t.kind != End && t.kind != Invalid)
      && (r.ok || t.kind == End || t.kind == Invalid || t == prev)
      && (r.ok || t.kind != prev.kind ==>
            && st.index <= t.start
            && (forall i :: st.index <= i < t.start - (if t.kind == StringLit then 1 else 0) ==>
                  IsWhitespace(CharAt(buf, i))))
      && (r.ok && t.kind in {MapOpen, MapClose, ArrayOpen, ArrayClose, Sep, MapSep} ==>
            && t.end == t.start + 1 == r.state.index
            && Punctuation(buf[t.start]) == t.kind && IsStructural(buf[t.start]))
      && (r.ok && t.kind == StringLit ==>
            && 0 < t.start <= t.end < |buf|
            && buf[t.start - 1] == '"' && buf[t.end] == '"'
            && '"' !in buf[t.start..t.end]
            && r.state.index == t.end + 1)
      && (r.ok && t.kind in {IntLit, FloatLit, TrueLit, FalseLit, NullLit} ==>
            && t.start < t.end == r.state.index <= |buf|
            && (forall i :: t.start <= i < t.end ==> !IsDelimiter(buf[i]))
            && (t.end < |buf| ==> IsDelimiter(buf[t.end]))
            && LiteralKind(buf[t.start..t.end]) == t.kind)
      && (!r.ok && t.kind == End && t != prev ==> CharAt(buf, t.start) == '\0' || CharAt(buf, t.start) == Eof)
  {
    var s := Trimmed(buf, st);
    var c := CharAt(buf, s.index);
    TrimmedSkipsWhitespace(buf, st);
    if !IsStructural(c) && c != '"' && c != '\0' && c != Eof {
      LiteralEndSpan(buf, s);
    }
    if c == '"' {
      var f := FindChar(buf, IncState(s), '"');
      FindCharSkips(buf, IncState(s), '"');
      if f.0 {
        var text := buf[s.index + 1..f.1.index];
        assert forall k :: 0 <= k < |text| ==> text[k] == buf[s.index + 1 + k];
      }
    }
  }

  /**
    `cson_lex_extract`: the text a token stands for, as the C string the
    parser reads back. A string's escapes are decoded first.
  */
  function Extract(buf: string, t: Token): (r: string)
    ensures '\0' !in r
    ensures |r| <= |Text(buf, t)|
  {
    if t.kind == StringLit then CString(Unescape(Text(buf, t))) else CString(Text(buf, t))
  }

  /** The byte a C escape sequence `\c` stands for, when `c` names one. */
  function Escape(c: char): Option<char>
  {
    match c
    case '\'' => Some('\'')
    case '"' => Some('"')
    case '?' => Some('?')
    case '\\' => Some('\\')
    case 'a' => Some(7 as char)
    case 'b' => Some(8 as char)
    case 'f' => Some(12 as char)
    case 'n' => Some(10 as char)
    case 'r' => Some(13 as char)
    case 't' => Some(9 as char)
    case 'v' => Some(11 as char)
    case _ => None
  }

  /**
    The decoding loop of `cson_lex_extract`: a known escape becomes its
    byte, an unknown one is kept with its backslash. A backslash ending the
    text is kept as it is.
  */
  function Unescape(s: string): (r: string)
    ensures |r| <= |s|
  {
    if s == [] then []
    else if s[0] == '\\' && |s| >= 2 then
      var e := Escape(s[1]);
      (if e.Some? then [e.value] else ['\\', s[1]]) + Unescape(s[2..])
    else [s[0]] + Unescape(s[1..])
  }

  /** A text without backslashes decodes to itself. */
  lemma {:induction false} UnescapePlain(s: string)
    requires '\\' !in s
    ensures Unescape(s) == s
  {
    if s != [] {
      assert s[0] != '\\';
      assert '\\' !in s[1..];
      UnescapePlain(s[1..]);
    }
  }

  /** Each escape sequence decodes to the byte it names, and an unknown one to itself. */
  lemma UnescapeEscapes(c: char, rest: string)
    ensures Escape(c).Some? ==> Unescape(['\\', c] + rest) == [Escape(c).value] + Unescape(rest)
    ensures Escape(c).None? ==> Unescape(['\\', c] + rest) == ['\\', c] + Unescape(rest)
  {
    assert (['\\', c] + rest)[2..] == rest;
  }

  /* ---------- The lexer object ---------- */

  /** A `CsonLexer` over a fixed buffer; its methods move the cursor in place. */
  class Lexer {
    const buffer: string
    var index: nat
    var loc: Loc

    function State(): LexState
      reads this
    {
      LexState(index, loc)
    }

    /** `cson_lex_init`. */
    constructor (buffer: string)
      ensures this.buffer == buffer && State() == Start()
    {
      this.buffer := buffer;
      index := 0;
      loc := Loc(1, 1);
    }

    /** `cson_lex_check_line` and `index++`. */
    method Advance(c: char)
      modifies this
      ensures State() == Forward(old(State()), c)
    {
      if c == '\n' {
        loc := Loc(loc.row + 1, 1);
      } else {
        loc := Loc(loc.row, loc.column + 1);
      }
      index := index + 1;
    }

    method TrimLeft()
      modifies this
      ensures State() == Trimmed(buffer, old(State()))
    {
      while index <= |buffer| && IsWhitespace(CharAt(buffer, index))
        invariant Trimmed(buffer, State()) == Trimmed(buffer, old(State()))
        decreases |buffer| + 1 - index
      {
        Advance(CharAt(buffer, index));
      }
    }

    method Find(c: char) returns (found: bool)
      modifies this
      ensures (found, State()) == FindChar(buffer, old(State()), c)
    {
      while index < |buffer|
        invariant FindChar(buffer, State(), c) == FindChar(buffer, old(State()), c)
        decreases |buffer| - index
      {
        if buffer[index] == c {
          return true;
        }
        Advance(buffer[index]);
      }
      return false;
    }

    method ScanLiteral()
      modifies this
      ensures State() == LiteralEnd(buffer, old(State()))
    {
      while index < |buffer| && !IsDelimiter(buffer[index])
        invariant LiteralEnd(buffer, State()) == LiteralEnd(buffer, old(State()))
        decreases |buffer| - index
      {
        Advance(buffer[index]);
      }
    }

    /** `cson_lex_inc`. */
    method Inc()
      modifies this
      ensures State() == IncState(old(State()))
    {
      index := index + 1;
      loc := Loc(loc.row, loc.column + 1);
    }

    /** `cson_lex_next`: `token` is what the token variable held before the call. */
    method Next(token: Token) returns (ok: bool, t: Token)
      modifies this
      ensures Lexed(ok, t, State()) == Lex(buffer, old(State()), token)
    {
      if index > |buffer| {
        return false, token;
      }
      TrimLeft();
      var at := index;
      var tokenLoc := loc;
      var c := CharAt(buffer, index);
      if IsStructural(c) {
        t := Token(Punctuation(c), at, at + 1, tokenLoc);
      } else if c == '"' {
        Inc();
        var found := Find('"');
        if !found {
          return false, token;
        }
        t := Token(StringLit, at + 1, index, tokenLoc);
      } else if c == '\0' || c == Eof {
        t := Token(End, at, at + 1, tokenLoc);
        Inc();
        return false, t;
      } else {
        ScanLiteral();
        var kind := LiteralKind(buffer[at..index]);
        t := Token(kind, at, index, tokenLoc);
        return kind != Invalid, t;
      }
      Inc();
      ok := true;
    }
  }
}
