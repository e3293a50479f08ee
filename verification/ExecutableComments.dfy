/** apps/api/internal/sqlpolicy/ecm_lexer.go: finding MySQL's executable comments in a single pass. */
module ExecutableComments {
  import opened Prelude
  import opened Lexemes

  datatype Mode = Mode(ansiQuotes: bool, noBackslashEscapes: bool)

  datatype LexerState = Normal | SingleQuote | DoubleQuote | DoubleQuoteIdent | Backtick | BlockComment | LineComment

  // What stands at a position in normal context: a token of some length, an executable comment, or a block comment that
  // is never closed.
  datatype Lexeme = Token(length: nat) | Executable | Open

  datatype Verdict = Absent | Present | Unclosed

  predicate OpensLineComment(rest: string)
  {
    rest != [] && (rest[0] == '#' || (|rest| > 1 && rest[0] == '-' && rest[1] == '-' && (|rest| == 2 || rest[2] <= ' ')))
  }

  predicate OpensBlockComment(rest: string) { |rest| > 1 && rest[0] == '/' && rest[1] == '*' }

  predicate IsExecutable(rest: string) { OpensBlockComment(rest) && |rest| > 2 && rest[2] == '!' }

  predicate Quote(c: char) { c == '\'' || c == '"' || c == '`' }

  // Backslashes escape in strings, not in names; in ANSI mode double quotes are for names.
  predicate Escapes(mode: Mode, q: char)
  {
    !mode.noBackslashEscapes && (q == '\'' || (q == '"' && !mode.ansiQuotes))
  }

  // A text never closed reaches to the end, and is no error.
  function QuotedLength(mode: Mode, t: string, q: char): (n: nat)
    ensures n <= |t|
  {
    var r := QuotedTail(t, q, Escapes(mode, q));
    if r.Some? then r.value else |t|
  }

  function Lex(mode: Mode, rest: string): (r: Lexeme)
    requires rest != []
    ensures r.Token? ==> 0 < r.length <= |rest|
  {
    if Quote(rest[0]) then Token(1 + QuotedLength(mode, rest[1..], rest[0]))
    else if OpensLineComment(rest) then Token(LineLength(rest))
    else if IsExecutable(rest) then Executable
    else if OpensBlockComment(rest) then
      var r := Through(rest[2..], "*/");
      if r.Some? then Token(2 + r.value) else Open
    else Token(1)
  }

  function Scan(mode: Mode, rest: string): Verdict
    decreases |rest|
  {
    if rest == [] then Absent
    else match Lex(mode, rest)
      case Executable => Present
      case Open => Unclosed
      case Token(n) => Scan(mode, rest[n..])
  }

  // ---- The rules, token by token ----

  // A number sign opens a comment; two minus signs do at the end of the text or before a blank or control character.
  lemma CommentRule(mode: Mode, line: string, rest: string)
    requires '\n' !in line && (rest == [] || rest[0] == '\n')
    ensures Lex(mode, "#" + line + rest) == Token(1 + |line|)
    ensures Lex(mode, "--" + line + rest) == if line == [] || line[0] as int <= 0x20 then Token(2 + |line|) else Token(1)
  {
    hide QuotedTail, Through;
    var (h, d) := ("#" + line + rest, "--" + line + rest);
    assert h[0] == '#' && d[0] == '-' && d[1] == '-' && (line != [] ==> d[2] == line[0]);
    assert line == [] && rest != [] ==> d[2] == '\n';
    LineEnds("#" + line, rest);
    LineEnds("--" + line, rest);
  }

  // A block comment is executable exactly if an exclamation mark follows its opening at once.
  lemma BlockRule(mode: Mode, rest: string)
    ensures (rest != [] && rest[0] == '!') <==> Lex(mode, "/*" + rest) == Executable
    ensures Lex(mode, "/*" + rest) == Executable
         || Lex(mode, "/*" + rest) == (if Through(rest, "*/").None? then Open else Token(2 + Through(rest, "*/").value))
  {
    var s := "/*" + rest;
    assert s[0] == '/' && s[1] == '*' && s[2..] == rest && (rest != [] ==> s[2] == rest[0]);
    hide QuotedTail, Through, LineLength;
  }

  // Backslashes escape in texts between single quotes, and between double quotes unless these are for names, if at all;
  // between backticks never. Quotes that are never closed reach to the end.
  lemma QuoteRule(mode: Mode, rest: string)
    ensures Lex(mode, "'" + rest) == Token(1 + Reach(QuotedTail(rest, '\'', !mode.noBackslashEscapes), rest))
    ensures Lex(mode, "\"" + rest) == Token(1 + Reach(QuotedTail(rest, '"', !mode.noBackslashEscapes && !mode.ansiQuotes), rest))
    ensures Lex(mode, "`" + rest) == Token(1 + Reach(QuotedTail(rest, '`', false), rest))
  {
    hide QuotedTail, Through, LineLength;
    assert ("'" + rest)[1..] == rest && ("\"" + rest)[1..] == rest && ("`" + rest)[1..] == rest;
  }

  function Reach(r: Option<nat>, rest: string): nat { if r.Some? then r.value else |rest| }

  // ---- What the verdict means ----

  predicate Tiled(mode: Mode, rest: string, k: nat)
    decreases k
  {
    k == 0 || (rest != [] && Lex(mode, rest).Token? && Lex(mode, rest).length <= k
               && Tiled(mode, rest[Lex(mode, rest).length..], k - Lex(mode, rest).length))
  }

  predicate Stands(mode: Mode, rest: string, k: nat, x: Lexeme)
  {
    k < |rest| && Tiled(mode, rest, k) && Lex(mode, rest[k..]) == x
  }

  lemma {:induction false} ScanSkipsTiles(mode: Mode, rest: string, k: nat)
    requires Tiled(mode, rest, k)
    ensures k <= |rest| && Scan(mode, rest) == Scan(mode, rest[k..])
    decreases k
  {
    hide Lex;
    if k == 0 {
      assert rest[0..] == rest;
    } else {
      var n := Lex(mode, rest).length;
      ScanSkipsTiles(mode, rest[n..], k - n);
      assert rest[n..][k - n..] == rest[k..];
    }
  }

  lemma {:induction false} ScanReaches(mode: Mode, rest: string) returns (k: nat)
    ensures k <= |rest| && Tiled(mode, rest, k)
    ensures match Scan(mode, rest)
      case Absent => k == |rest|
      case Present => k < |rest| && Lex(mode, rest[k..]) == Executable
      case Unclosed => k < |rest| && Lex(mode, rest[k..]) == Open
    decreases |rest|
  {
    hide Lex;
    k := 0;
    assert rest[0..] == rest;
    if rest != [] && Lex(mode, rest).Token? {
      var n := Lex(mode, rest).length;
      var m := ScanReaches(mode, rest[n..]);
      k := n + m;
      assert rest[n..][m..] == rest[k..];
    }
  }

  // An executable comment is reported if and only if one starts in normal context after whole tokens; the error is
  // reported if and only if a block comment that opens there is never closed.
  lemma VerdictIsExact(mode: Mode, sql: string)
    ensures Scan(mode, sql) == Present <==> exists k: nat :: Stands(mode, sql, k, Executable)
    ensures Scan(mode, sql) == Unclosed <==> exists k: nat :: Stands(mode, sql, k, Open)
    ensures Scan(mode, sql) == Absent <==> Tiled(mode, sql, |sql|)
  {
    hide Lex;
    var k := ScanReaches(mode, sql);
    assert k < |sql| ==> Stands(mode, sql, k, Lex(mode, sql[k..]));
    forall i: nat, x | Stands(mode, sql, i, x) && !x.Token?
      ensures Scan(mode, sql) == if x.Executable? then Present else Unclosed
    {
      ScanSkipsTiles(mode, sql, i);
    }
    if Tiled(mode, sql, |sql|) {
      ScanSkipsTiles(mode, sql, |sql|);
    }
  }

  // ---- The state machine ----

  function QuoteOf(state: LexerState): char
    requires state in {SingleQuote, DoubleQuote, DoubleQuoteIdent, Backtick}
  {
    match state case SingleQuote => '\'' case Backtick => '`' case _ => '"'
  }

  predicate Fits(mode: Mode, state: LexerState)
  {
    (state.DoubleQuote? ==> !mode.ansiQuotes) && (state.DoubleQuoteIdent? ==> mode.ansiQuotes)
  }

  // The verdict on what is left of the input in a state.
  function Resume(mode: Mode, state: LexerState, t: string): Verdict
  {
    match state
    case Normal => Scan(mode, t)
    case LineComment => Scan(mode, t[LineLength(t)..])
    case BlockComment =>
      var r := Through(t, "*/");
      if r.Some? then Scan(mode, t[r.value..]) else Unclosed
    case _ => Scan(mode, t[QuotedLength(mode, t, QuoteOf(state))..])
  }

  lemma QuotedLengthStep(mode: Mode, s: string, i: nat, q: char)
    requires i < |s|
    ensures QuotedLength(mode, s[i..], q) ==
      if s[i] == '\\' && Escapes(mode, q) && i + 1 < |s| then 2 + QuotedLength(mode, s[i + 2..], q)
      else if s[i] == q then (if i + 1 < |s| && s[i + 1] == q then 2 + QuotedLength(mode, s[i + 2..], q) else 1)
      else 1 + QuotedLength(mode, s[i + 1..], q)
  {
    hide QuotedTail, Escapes;
    QuotedStep(s, i, q, Escapes(mode, q));
  }

  lemma QuotedResume(mode: Mode, state: LexerState, s: string, i: nat)
    requires state in {SingleQuote, DoubleQuote, DoubleQuoteIdent, Backtick} && i < |s|
    ensures Resume(mode, state, s[i..]) ==
      if s[i] == '\\' && Escapes(mode, QuoteOf(state)) && i + 1 < |s| then Resume(mode, state, s[i + 2..])
      else if s[i] == QuoteOf(state) then
        (if i + 1 < |s| && s[i + 1] == QuoteOf(state) then Resume(mode, state, s[i + 2..]) else Resume(mode, Normal, s[i + 1..]))
      else Resume(mode, state, s[i + 1..])
  {
    hide Scan, QuotedLength, Escapes;
    var q := QuoteOf(state);
    QuotedLengthStep(mode, s, i, q);
    Suffixes(s, i, QuotedLength(mode, s[i..], q));
  }

  lemma Suffixes(s: string, i: nat, n: nat)
    requires i + n <= |s|
    ensures s[i..][n..] == s[i + n..]
    ensures n >= 1 ==> s[i + 1..][n - 1..] == s[i + n..]
    ensures n >= 2 ==> s[i + 2..][n - 2..] == s[i + n..]
  {
  }

  lemma LineResume(mode: Mode, s: string, i: nat)
    requires i < |s|
    ensures Resume(mode, LineComment, s[i..]) == Resume(mode, if s[i] == '\n' then Normal else LineComment, s[i + 1..])
  {
    assert s[i..][1..] == s[i + 1..];
    if s[i] == '\n' {
      assert s[i..][0..] == s[i..] && !OpensLineComment(s[i..]) && Lex(mode, s[i..]) == Token(1);
    } else {
      hide Scan;
      assert LineLength(s[i..]) == 1 + LineLength(s[i + 1..]);
      Suffixes(s, i, LineLength(s[i..]));
    }
  }

  lemma BlockResume(mode: Mode, s: string, i: nat)
    requires i < |s|
    ensures Resume(mode, BlockComment, s[i..]) ==
      if i + 1 < |s| && s[i] == '*' && s[i + 1] == '/' then Resume(mode, Normal, s[i + 2..]) else Resume(mode, BlockComment, s[i + 1..])
  {
    hide Scan, Through;
    ThroughStep(s, i, "*/");
    if i + 1 < |s| {
      assert s[i..i + 2] == [s[i], s[i + 1]];
      var r := Through(s[i..], "*/");
      if r.Some? { Suffixes(s, i, r.value); }
    } else {
      ThroughStep(s, i + 1, "*/");
    }
  }

  function StateOf(mode: Mode, q: char): LexerState
    requires Quote(q)
  {
    if q == '\'' then SingleQuote else if q == '`' then Backtick else if mode.ansiQuotes then DoubleQuoteIdent else DoubleQuote
  }

  lemma NormalQuoted(mode: Mode, s: string, i: nat)
    requires i < |s| && Quote(s[i])
    ensures Scan(mode, s[i..]) == Resume(mode, StateOf(mode, s[i]), s[i + 1..])
  {
    hide QuotedTail, Escapes;
    assert s[i..][1..] == s[i + 1..];
    Suffixes(s, i, 1 + QuotedLength(mode, s[i + 1..], s[i]));
  }

  lemma NormalLineComment(mode: Mode, s: string, i: nat)
    requires i < |s| && OpensLineComment(s[i..])
    ensures s[i] == '#' ==> Scan(mode, s[i..]) == Resume(mode, LineComment, s[i + 1..])
    ensures s[i] == '-' ==> Scan(mode, s[i..]) == Resume(mode, LineComment, s[i + 2..])
  {
    var rest := s[i..];
    LineSteps(s, i);
    CommentIsToken(mode, rest);
    hide LineLength, Lex, OpensLineComment;
    Suffixes(s, i, LineLength(rest));
  }

  lemma CommentIsToken(mode: Mode, rest: string)
    requires OpensLineComment(rest)
    ensures Lex(mode, rest) == Token(LineLength(rest))
  {
    hide QuotedTail, Through, LineLength;
  }

  lemma LineSteps(s: string, i: nat)
    requires i < |s|
    ensures s[i] != '\n' ==> LineLength(s[i..]) == 1 + LineLength(s[i + 1..])
    ensures s[i] != '\n' && i + 1 < |s| && s[i + 1] != '\n' ==> LineLength(s[i..]) == 2 + LineLength(s[i + 2..])
  {
    assert s[i..][1..] == s[i + 1..];
    if i + 1 < |s| { assert s[i + 1..][1..] == s[i + 2..]; }
  }

  lemma NormalBlockComment(mode: Mode, s: string, i: nat)
    requires i < |s| && OpensBlockComment(s[i..]) && !IsExecutable(s[i..])
    ensures Scan(mode, s[i..]) == Resume(mode, BlockComment, s[i + 2..])
  {
    BlockLexeme(mode, s[i..]);
    hide Through, Lex, IsExecutable, OpensBlockComment;
    assert s[i..][2..] == s[i + 2..];
    var r := Through(s[i + 2..], "*/");
    if r.Some? { Suffixes(s, i, 2 + r.value); }
  }

  lemma BlockLexeme(mode: Mode, rest: string)
    requires OpensBlockComment(rest) && !IsExecutable(rest)
    ensures Lex(mode, rest) == if Through(rest[2..], "*/").Some? then Token(2 + Through(rest[2..], "*/").value) else Open
  {
    hide Through;
  }

  lemma NormalResume(mode: Mode, s: string, i: nat)
    requires i < |s|
    ensures Resume(mode, Normal, s[i..]) ==
      if Quote(s[i]) then Resume(mode, StateOf(mode, s[i]), s[i + 1..])
      else if s[i] == '#' then Resume(mode, LineComment, s[i + 1..])
      else if OpensLineComment(s[i..]) then Resume(mode, LineComment, s[i + 2..])
      else if IsExecutable(s[i..]) then Present
      else if OpensBlockComment(s[i..]) then Resume(mode, BlockComment, s[i + 2..])
      else Resume(mode, Normal, s[i + 1..])
  {
    hide QuotedTail, Through, Escapes, LineLength, StateOf;
    var rest := s[i..];
    Fresh(mode, rest);
    if Quote(s[i]) {
      NormalQuoted(mode, s, i);
    } else if OpensLineComment(rest) {
      NormalLineComment(mode, s, i);
    } else if IsExecutable(rest) {
      assert Lex(mode, rest) == Executable;
    } else if OpensBlockComment(rest) {
      NormalBlockComment(mode, s, i);
    } else {
      assert Lex(mode, rest) == Token(1) && rest[1..] == s[i + 1..];
      Fresh(mode, s[i + 1..]);
    }
    hide Resume;
  }

  class EcmLexer {
    const input: string
    const mode: Mode
    var pos: nat

    constructor (input: string, mode: Mode)
      ensures this.input == input && this.mode == mode && pos == 0
    {
      this.input, this.mode, pos := input, mode, 0;
    }

    method ScanAll() returns (r: Verdict)
      requires pos <= |input|
      modifies this`pos
      ensures r == Scan(mode, old(input[pos..]))
    {
      hide Scan, Resume, OpensLineComment, OpensBlockComment, IsExecutable;
      var state := Normal;
      var n := |input|;
      assert Scan(mode, input[pos..]) == Resume(mode, Normal, input[pos..]) by { Fresh(mode, input[pos..]); }
      while pos < n
        invariant pos <= n && Resume(mode, state, input[pos..]) == Scan(mode, old(input[pos..]))
        invariant Fits(mode, state)
        decreases n - pos
      {
        var ch := input[pos];
        match state {
          case Normal =>
            var present;
            state, present := StepNormal(ch);
            if present {
              return Present;
            }
          case LineComment =>
            LineResume(mode, input, pos);
            if ch == '\n' {
              state := Normal;
            }
          case BlockComment =>
            BlockResume(mode, input, pos);
            if ch == '*' && pos + 1 < n && input[pos + 1] == '/' {
              pos := pos + 1;
              state := Normal;
            }
          case _ =>
            state := StepQuoted(state, ch);
        }
        pos := pos + 1;
      }
      assert input[pos..] == [];
      Ended(mode, state);
      if state.BlockComment? {
        return Unclosed;
      }
      return Absent;
    }

    method StepNormal(ch: char) returns (state: LexerState, present: bool)
      requires pos < |input| && ch == input[pos]
      modifies this`pos
      ensures old(pos) <= pos < |input| && Fits(mode, state)
      ensures if present then Resume(mode, Normal, input[old(pos)..]) == Present
        else Resume(mode, Normal, input[old(pos)..]) == Resume(mode, state, input[pos + 1..])
    {
      hide Resume;
      NormalResume(mode, input, pos);
      state, present := Normal, false;
      var n := |input|;
      if ch == '\'' {
        state := SingleQuote;
      } else if ch == '"' {
        state := if mode.ansiQuotes then DoubleQuoteIdent else DoubleQuote;
      } else if ch == '`' {
        state := Backtick;
      } else if ch == '#' {
        state := LineComment;
      } else if ch == '-' {
        if pos + 1 < n && input[pos + 1] == '-' {
          if pos + 2 >= n || input[pos + 2] <= ' ' {
            state := LineComment;
            pos := pos + 1;
          }
        }
      } else if ch == '/' {
        if pos + 1 < n && input[pos + 1] == '*' {
          if pos + 2 < n && input[pos + 2] == '!' {
            present := true;
            return;
          }
          // a hint comment is a block comment like any other
          pos := pos + 1;
          state := BlockComment;
        }
      }
    }

    method StepQuoted(state: LexerState, ch: char) returns (next: LexerState)
      requires pos < |input| && ch == input[pos] && Fits(mode, state)
      requires state in {SingleQuote, DoubleQuote, DoubleQuoteIdent, Backtick}
      modifies this`pos
      ensures old(pos) <= pos < |input| && Fits(mode, next)
      ensures Resume(mode, state, input[old(pos)..]) == Resume(mode, next, input[pos + 1..])
    {
      hide Resume;
      QuotedResume(mode, state, input, pos);
      next := state;
      var escapes := (state.SingleQuote? || state.DoubleQuote?) && !mode.noBackslashEscapes;
      if ch == QuoteOf(state) {
        if pos + 1 < |input| && input[pos + 1] == QuoteOf(state) {
          pos := pos + 1;
        } else {
          next := Normal;
        }
      } else if ch == '\\' && escapes {
        if pos + 1 < |input| {
          pos := pos + 1;
        }
      }
    }
  }

  lemma Fresh(mode: Mode, t: string)
    ensures Scan(mode, t) == Resume(mode, Normal, t)
  {
  }

  lemma Ended(mode: Mode, state: LexerState)
    ensures Resume(mode, state, []) == if state.BlockComment? then Unclosed else Absent
  {
  }
}
