/** apps/api/internal/sqlpolicy/placeholder.go: finding native placeholders outside literals, comments and quoted names. */
module Placeholders {
  import opened Prelude
  import opened Sql
  import opened Lexemes

  // What stands at a position in normal context: a token of some length, a placeholder, or an element never closed.
  datatype Lexeme = Token(length: nat) | Hit | Open

  datatype Verdict = Clean | Found | Unclosed

  predicate Digit(c: char) { '0' <= c <= '9' }

  predicate IdentContinuation(c: char)
  {
    c >= 128 as char || c == '_' || c == '$' || 'a' <= c <= 'z' || 'A' <= c <= 'Z' || Digit(c)
  }

  // unicode.IsLetter for a single byte.
  predicate Letter(c: char)
  {
    'a' <= c <= 'z' || 'A' <= c <= 'Z' || c as int in {0xAA, 0xB5, 0xBA} || (0xC0 <= c as int <= 0xFF && c as int !in {0xD7, 0xF7})
  }

  // Whether a backslash escapes in a single-quoted text that follows before.
  predicate Escapes(d: Engine, before: string)
  {
    var n := |before|;
    d.MySQL? || (n > 0 && before[n - 1] in {'E', 'e'} && (n > 1 ==> !IdentContinuation(before[n - 2])))
  }

  // Asked at a dollar or a question mark only; in PostgreSQL a digit after either one counts.
  predicate IsPlaceholder(d: Engine, rest: string)
    requires rest != []
  {
    match d case PostgreSQL => |rest| > 1 && Digit(rest[1]) case MySQL => rest[0] == '?'
  }

  predicate OpensLineComment(d: Engine, rest: string)
  {
    || (|rest| > 1 && rest[0] == '-' && rest[1] == '-' && (d.PostgreSQL? || |rest| == 2 || rest[2] <= ' '))
    || (rest != [] && rest[0] == '#' && d.MySQL?)
  }

  predicate OpensDollarQuote(d: Engine, rest: string)
  {
    d.PostgreSQL? && |rest| > 1 && rest[0] == '$' && (rest[1] == '$' || rest[1] == '_' || Letter(rest[1]))
  }

  function Delimited(opening: nat, tail: Option<nat>): Lexeme
  {
    if tail.Some? then Token(opening + tail.value) else Open
  }

  // before is all that was read, rest what is left.
  function Lex(d: Engine, before: string, rest: string): (r: Lexeme)
    requires rest != []
    ensures r.Token? ==> 0 < r.length <= |rest|
  {
    var c := rest[0];
    if c == '\'' then Delimited(1, QuotedTail(rest[1..], c, Escapes(d, before)))
    else if c == '"' || c == '`' then Delimited(1, QuotedTail(rest[1..], c, false))
    else if OpensLineComment(d, rest) then Token(LineLength(rest))
    else if c == '/' && |rest| > 1 && rest[1] == '*' then Delimited(2, Through(rest[2..], "*/"))
    else if (c == '$' || c == '?') && IsPlaceholder(d, rest) then Hit
    else if OpensDollarQuote(d, rest) then Delimited(1, DollarTail(rest[1..]))
    else Token(1)
  }

  function Scan(d: Engine, before: string, rest: string): Verdict
    decreases |rest|
  {
    if rest == [] then Clean
    else match Lex(d, before, rest)
      case Hit => Found
      case Open => Unclosed
      case Token(n) => Scan(d, before + rest[..n], rest[n..])
  }

  // ---- The scanner ----

  method SkipElement(d: Engine, sql: string, i: nat) returns (x: Lexeme)
    requires i < |sql|
    ensures x == Lex(d, sql[..i], sql[i..])
  {
    hide QuotedTail, Through, DollarTail, LineLength;
    var c := sql[i];
    var next, closed;
    ghost var rest := sql[i..];
    assert rest[1..] == sql[i + 1..];
    if c == '\'' {
      next, closed := SkipQuoted(sql, i, c, Escapes(d, sql[..i]));
      return if closed then Token(next - i) else Open;
    }
    if c == '"' || c == '`' {
      next, closed := SkipQuoted(sql, i, c, false);
      return if closed then Token(next - i) else Open;
    }
    if OpensLineComment(d, sql[i..]) {
      next := SkipLineComment(sql, i);
      return Token(next - i);
    }
    if c == '/' && i + 1 < |sql| && sql[i + 1] == '*' {
      assert rest[2..] == sql[i + 2..];
      next, closed := SkipBlockComment(sql, i);
      return if closed then Token(next - i) else Open;
    }
    if c == '$' || c == '?' {
      if IsPlaceholder(d, sql[i..]) {
        return Hit;
      }
      if OpensDollarQuote(d, sql[i..]) {
        next, closed := SkipDollarQuoted(sql, i);
        return if closed then Token(next - i) else Open;
      }
    }
    return Token(1);
  }

  method ScanPlaceholder(d: Engine, sql: string) returns (r: Verdict)
    ensures r == Scan(d, [], sql)
  {
    hide Lex, Escapes;
    var i := 0;
    while i < |sql|
      invariant 0 <= i <= |sql|
      invariant Scan(d, [], sql) == Scan(d, sql[..i], sql[i..])
    {
      var x := SkipElement(d, sql, i);
      if x.Hit? {
        return Found;
      }
      if x.Open? {
        return Unclosed;
      }
      assert sql[..i] + sql[i..][..x.length] == sql[..i + x.length];
      assert sql[i..][x.length..] == sql[i + x.length..];
      i := i + x.length;
    }
    return Clean;
  }

  // HasUnboundPlaceholder; None is an unknown dialect, and the error refuses the statement like a placeholder does.
  method HasUnboundPlaceholder(d: Option<Engine>, sql: string) returns (r: Option<bool>)
    ensures r == if d.None? then None else match Scan(d.value, [], sql)
      case Clean => Some(false) case Found => Some(true) case Unclosed => None
  {
    if d.None? {
      return None;
    }
    var v := ScanPlaceholder(d.value, sql);
    match v {
      case Clean => return Some(false);
      case Found => return Some(true);
      case Unclosed => return None;
    }
  }

  // ---- What the verdict means ----

  // The first k characters of rest are whole tokens.
  predicate Tiled(d: Engine, before: string, rest: string, k: nat)
    decreases k
  {
    k == 0 || (rest != [] && Lex(d, before, rest).Token? && Lex(d, before, rest).length <= k
               && var n := Lex(d, before, rest).length; Tiled(d, before + rest[..n], rest[n..], k - n))
  }

  // After k characters of whole tokens, x stands next.
  predicate Stands(d: Engine, sql: string, k: nat, x: Lexeme)
  {
    k < |sql| && Tiled(d, [], sql, k) && Lex(d, sql[..k], sql[k..]) == x
  }

  // Scanning goes from token to token.
  lemma {:induction false} ScanSkipsTiles(d: Engine, before: string, rest: string, k: nat)
    requires Tiled(d, before, rest, k)
    ensures k <= |rest| && Scan(d, before, rest) == Scan(d, before + rest[..k], rest[k..])
    decreases k
  {
    hide Lex;
    if k == 0 {
      assert before + rest[..0] == before && rest[0..] == rest;
    } else {
      var n := Lex(d, before, rest).length;
      ScanSkipsTiles(d, before + rest[..n], rest[n..], k - n);
      assert before + rest[..n] + rest[n..][..k - n] == before + rest[..k];
      assert rest[n..][k - n..] == rest[k..];
    }
  }

  // How far the tokens reach: to the end, to a placeholder, or to an element never closed.
  lemma {:induction false} ScanReaches(d: Engine, before: string, rest: string) returns (k: nat)
    ensures k <= |rest| && Tiled(d, before, rest, k)
    ensures match Scan(d, before, rest)
      case Clean => k == |rest|
      case Found => k < |rest| && Lex(d, before + rest[..k], rest[k..]) == Hit
      case Unclosed => k < |rest| && Lex(d, before + rest[..k], rest[k..]) == Open
    decreases |rest|
  {
    hide Lex;
    k := 0;
    assert before + rest[..0] == before && rest[0..] == rest;
    if rest != [] && Lex(d, before, rest).Token? {
      var n := Lex(d, before, rest).length;
      var m := ScanReaches(d, before + rest[..n], rest[n..]);
      k := n + m;
      assert before + rest[..n] + rest[n..][..m] == before + rest[..k];
      assert rest[n..][m..] == rest[k..];
    }
  }

  // The verdict is exact: a placeholder is reported just when, after whole tokens, one stands in normal context; the
  // error just when there an element opens that is never closed; and none of both just when the text is whole tokens.
  lemma VerdictIsExact(d: Engine, sql: string)
    ensures Scan(d, [], sql) == Found <==> exists k: nat :: Stands(d, sql, k, Hit)
    ensures Scan(d, [], sql) == Unclosed <==> exists k: nat :: Stands(d, sql, k, Open)
    ensures Scan(d, [], sql) == Clean <==> Tiled(d, [], sql, |sql|)
  {
    hide Lex;
    var k := ScanReaches(d, [], sql);
    assert [] + sql[..k] == sql[..k];
    assert k < |sql| ==> Stands(d, sql, k, Lex(d, sql[..k], sql[k..]));
    forall i: nat, x | Stands(d, sql, i, x) && !x.Token? ensures Scan(d, [], sql) == if x.Hit? then Found else Unclosed {
      ScanSkipsTiles(d, [], sql, i);
      assert [] + sql[..i] == sql[..i];
    }
    if Tiled(d, [], sql, |sql|) {
      ScanSkipsTiles(d, [], sql, |sql|);
    }
  }

  // ---- The rules of the dialects, token by token ----

  // A number sign opens a comment in MySQL, up to the end of the line, and is an operator's character in PostgreSQL.
  lemma HashRule(before: string, line: string, rest: string)
    requires '\n' !in line && (rest == [] || rest[0] == '\n')
    ensures Lex(MySQL, before, "#" + line + rest) == Token(1 + |line|)
    ensures Lex(PostgreSQL, before, "#" + line + rest) == Token(1)
  {
    var s := "#" + line + rest;
    hide QuotedTail, Through, DollarTail, Escapes;
    assert s[0] == '#';
    LineEnds("#" + line, rest);
  }

  // Two minus signs open a comment in PostgreSQL; in MySQL only at the end of the text or before a blank or a control
  // character: otherwise they are two signs.
  lemma DashRule(before: string, line: string, rest: string)
    requires '\n' !in line && (rest == [] || rest[0] == '\n')
    ensures Lex(PostgreSQL, before, "--" + line + rest) == Token(2 + |line|)
    ensures Lex(MySQL, before, "--" + line + rest) ==
      if line == [] || line[0] as int <= 0x20 then Token(2 + |line|) else Token(1)
  {
    var s := "--" + line + rest;
    hide QuotedTail, Through, DollarTail, Escapes;
    assert s[0] == '-' && s[1] == '-' && (line != [] ==> s[2] == line[0]) && (line == [] && rest != [] ==> s[2] == '\n');
    LineEnds("--" + line, rest);
  }

  // A text between dollars is skipped in PostgreSQL, up to the first repetition of its opening, if that is $$ or starts
  // with a letter or an underscore; a dollar before a digit is a placeholder, and before anything else, as in MySQL, a
  // character like others.
  lemma DollarRule(before: string, rest: string)
    ensures var s := "$" + rest;
      && Lex(MySQL, before, s) == Token(1)
      && Lex(PostgreSQL, before, s) ==
           if rest == [] then Token(1)
           else if '0' <= rest[0] <= '9' then Hit
           else if rest[0] == '$' || rest[0] == '_' || LetterCode(rest[0] as int) then Delimited(1, DollarTail(rest))
           else Token(1)
  {
    var s := "$" + rest;
    assert s[0] == '$' && s[1..] == rest && (rest != [] ==> s[1] == rest[0]);
    hide QuotedTail, Through, DollarTail, Escapes, LineLength;
  }

  // A to Z, a to z, and the letters of Latin-1.
  predicate LetterCode(c: int)
  {
    0x41 <= c <= 0x5A || 0x61 <= c <= 0x7A || c in {0xAA, 0xB5, 0xBA} || 0xC0 <= c <= 0xD6 || 0xD8 <= c <= 0xF6 || 0xF8 <= c <= 0xFF
  }

  // Texts between double quotes or backticks know no escapes but doubling, and comments between /* and */ no nesting.
  lemma DelimiterRule(d: Engine, before: string, rest: string)
    ensures Lex(d, before, "\"" + rest) == Delimited(1, QuotedTail(rest, '"', false))
    ensures Lex(d, before, "`" + rest) == Delimited(1, QuotedTail(rest, '`', false))
    ensures Lex(d, before, "'" + rest) == Delimited(1, QuotedTail(rest, '\'', Escapes(d, before)))
    ensures Lex(d, before, "/*" + rest) == Delimited(2, Through(rest, "*/"))
  {
    hide QuotedTail, Through, DollarTail, Escapes, LineLength;
    assert ("\"" + rest)[1..] == rest && ("`" + rest)[1..] == rest && ("'" + rest)[1..] == rest && ("/*" + rest)[2..] == rest;
    assert ("/*" + rest)[0] == '/' && ("/*" + rest)[1] == '*';
  }

  // In MySQL every question mark in normal context is a placeholder, whatever follows, and nothing else is.
  lemma QuestionIsPlaceholder(sql: string, k: nat)
    ensures Stands(MySQL, sql, k, Hit) <==> Tiled(MySQL, [], sql, k) && k < |sql| && sql[k] == '?'
  {
    hide Tiled, QuotedTail, Through, DollarTail, LineLength, Escapes;
    assert k < |sql| ==> sql[k..][0] == sql[k];
  }

  // A backslash escapes in every quoted text of MySQL, and in PostgreSQL just behind an E that is not the end of a name.
  lemma EscapeRule(before: string)
    ensures Escapes(MySQL, before)
    ensures !Escapes(PostgreSQL, "")
    ensures forall c :: Escapes(PostgreSQL, [c]) <==> c == 'E' || c == 'e'
    ensures forall c, e :: Escapes(PostgreSQL, before + [c, e]) <==> (e == 'E' || e == 'e') && !NamePart(c as int)
  {
    forall c, e ensures Escapes(PostgreSQL, before + [c, e]) <==> (e == 'E' || e == 'e') && !NamePart(c as int) {
      var s := before + [c, e];
      assert s[|s| - 1] == e && s[|s| - 2] == c;
    }
  }

  // Letters, digits, the underscore, the dollar, and everything outside ASCII.
  predicate NamePart(c: int)
  {
    0x41 <= c <= 0x5A || 0x61 <= c <= 0x7A || 0x30 <= c <= 0x39 || c == 0x5F || c == 0x24 || c >= 0x80
  }

  // ---- What PostgreSQL's placeholders are taken for ----

  predicate DollarNumber(sql: string, k: nat) { k + 1 < |sql| && sql[k] == '$' && Digit(sql[k + 1]) }

  predicate QuestionDigit(sql: string, k: nat) { k + 1 < |sql| && sql[k] == '?' && Digit(sql[k + 1]) }

  // After whole tokens.
  ghost predicate NumberStands(sql: string) { exists k :: Tiled(PostgreSQL, [], sql, k) && DollarNumber(sql, k) }

  ghost predicate QuestionStands(sql: string) { exists k :: Tiled(PostgreSQL, [], sql, k) && QuestionDigit(sql, k) }

  lemma HitIsNumber(sql: string, k: nat)
    ensures Stands(PostgreSQL, sql, k, Hit) <==> Tiled(PostgreSQL, [], sql, k) && (DollarNumber(sql, k) || QuestionDigit(sql, k))
  {
    hide Tiled, QuotedTail, Through, DollarTail, LineLength, Escapes;
    assert k < |sql| ==> sql[k..][0] == sql[k];
    assert k + 1 < |sql| ==> sql[k..][1] == sql[k + 1];
  }

  // Tokens reach no further than a placeholder.
  lemma {:induction false} TilesEndAtHit(d: Engine, before: string, rest: string, k: nat, m: nat)
    requires Tiled(d, before, rest, k) && Tiled(d, before, rest, m) && k < m
    ensures k < |rest| && Lex(d, before + rest[..k], rest[k..]).Token?
    decreases k
  {
    hide Lex;
    if k == 0 {
      assert before + rest[..0] == before && rest[0..] == rest;
    } else {
      var n := Lex(d, before, rest).length;
      TilesEndAtHit(d, before + rest[..n], rest[n..], k - n, m - n);
      assert before + rest[..n] + rest[n..][..k - n] == before + rest[..k] && rest[n..][k - n..] == rest[k..];
    }
  }

  lemma HitsAgree(sql: string, k: nat, m: nat)
    requires Stands(PostgreSQL, sql, k, Hit) && Stands(PostgreSQL, sql, m, Hit)
    ensures k == m
  {
    hide Lex, Tiled;
    if k != m {
      var (i, j) := if k < m then (k, m) else (m, k);
      assert [] + sql[..i] == sql[..i];
      TilesEndAtHit(PostgreSQL, [], sql, i, j);
    }
  }

  // In PostgreSQL the report means that a $-number stands in normal context if and only if no question mark before a
  // digit comes to stand there.
  lemma ReportsNumbersIff(sql: string)
    ensures (Scan(PostgreSQL, [], sql) == Found <==> NumberStands(sql)) <==> !QuestionStands(sql)
  {
    hide Lex, Tiled, Scan;
    VerdictIsExact(PostgreSQL, sql);
    forall k: nat
      ensures Stands(PostgreSQL, sql, k, Hit)
        <==> Tiled(PostgreSQL, [], sql, k) && (DollarNumber(sql, k) || QuestionDigit(sql, k))
    {
      HitIsNumber(sql, k);
    }
    if NumberStands(sql) && QuestionStands(sql) {
      var k :| Tiled(PostgreSQL, [], sql, k) && DollarNumber(sql, k);
      var m :| Tiled(PostgreSQL, [], sql, m) && QuestionDigit(sql, m);
      HitsAgree(sql, k, m);
      assert false;
    }
  }

  lemma QuestionDigitIsReported()
    ensures Scan(PostgreSQL, [], "?1") == Found && QuestionStands("?1") && !NumberStands("?1")
  {
    assert Lex(PostgreSQL, [], "?1") == Hit;
    assert Tiled(PostgreSQL, [], "?1", 0) && QuestionDigit("?1", 0);
    hide Scan, Tiled;
    ReportsNumbersIff("?1");
  }

  // ---- Inserting a quoted literal between tokens ----

  function Literal(x: string): string { "'" + x + "'" }

  // The element at the start of rest, all of it up to k, would run on into a literal that follows.
  predicate RunsOn(d: Engine, rest: string, k: nat)
  {
    rest != [] && (rest[0] == '\'' || (OpensLineComment(d, rest) && !(d.MySQL? && k == 2 && rest[0] == '-')))
  }

  // rest[..k] is tiled and its last token does not run on.
  predicate Free(d: Engine, before: string, rest: string, k: nat)
    decreases k
  {
    k == 0 || (rest != [] && Lex(d, before, rest).Token? && Lex(d, before, rest).length <= k
               && var n := Lex(d, before, rest).length;
                  if n == k then !RunsOn(d, rest, k) else Free(d, before + rest[..n], rest[n..], k - n))
  }

  lemma {:induction false} FreeIsTiled(d: Engine, before: string, rest: string, k: nat)
    requires Free(d, before, rest, k)
    ensures Tiled(d, before, rest, k)
    decreases k
  {
    hide Lex, RunsOn;
    if k > 0 {
      var n := Lex(d, before, rest).length;
      if n < k { FreeIsTiled(d, before + rest[..n], rest[n..], k - n); }
    }
  }

  // Two texts that agree on the first k characters, the second going on with a quote.
  predicate Agree(rest: string, rest': string, k: nat)
  {
    0 < k <= |rest| && k < |rest'| && rest[..k] == rest'[..k] && rest'[k] == '\''
  }

  lemma QuotedLocal(t: string, t': string, q: char, escapes: bool, j: nat)
    requires q != '\\' && j <= |t| && j <= |t'| && t[..j] == t'[..j] && !StartsWith(t'[j..], q)
    ensures QuotedTail(t, q, escapes) == Some(j) ==> QuotedTail(t', q, escapes) == Some(j)
  {
    hide QuotedTail, Body;
    QuotedTailIsBody(t, q, escapes, j);
    QuotedTailIsBody(t', q, escapes, j);
    if 0 < j {
      assert t[..j][..j - 1] == t[..j - 1] && t'[..j][..j - 1] == t'[..j - 1];
      assert t[..j][j - 1] == t'[..j][j - 1];
    }
  }

  lemma {:induction false} ThroughLocal(t: string, t': string, mark: string, j: nat)
    requires mark != [] && j <= |t| && j <= |t'| && t[..j] == t'[..j] && Through(t, mark) == Some(j)
    ensures Through(t', mark) == Some(j)
    decreases |t|
  {
    assert t[..|mark|] == t[..j][..|mark|] == t'[..j][..|mark|] == t'[..|mark|];
    if t[..|mark|] != mark {
      assert t[1..][..j - 1] == t[..j][1..] == t'[..j][1..] == t'[1..][..j - 1];
      ThroughLocal(t[1..], t'[1..], mark, j - 1);
    }
  }

  lemma DollarLocal(t: string, t': string, j: nat)
    requires j <= |t| && j <= |t'| && t[..j] == t'[..j] && DollarTail(t) == Some(j)
    ensures DollarTail(t') == Some(j)
  {
    hide Through;
    var n := Through(t, "$").value;
    assert t[..n] == t[..j][..n] == t'[..j][..n] == t'[..n];
    ThroughLocal(t, t', "$", n);
    assert t[..n - 1] == t[..n][..n - 1] == t'[..n][..n - 1] == t'[..n - 1];
    assert t[n..][..j - n] == t[..j][n..] == t'[..j][n..] == t'[n..][..j - n];
    ThroughLocal(t[n..], t'[n..], "$" + t[..n - 1] + "$", j - n);
  }

  lemma LineLocal(t: string, t': string, j: nat)
    requires j < |t| && j < |t'| && t[..j + 1] == t'[..j + 1] && LineLength(t) == j
    ensures LineLength(t') == j
  {
    hide LineLength;
    forall i | 0 <= i <= j ensures t[i] == t'[i] {
      assert t[..j + 1][i] == t'[..j + 1][i];
    }
    assert LineLength(t') <= j;
  }

  // What opens an element is seen within the first k characters and the quote that follows them.
  lemma OpeningsAgree(d: Engine, rest: string, rest': string, k: nat)
    requires Agree(rest, rest', k)
    ensures rest'[0] == rest[0]
    ensures k > 1 ==> rest'[1] == rest[1]
    ensures OpensLineComment(d, rest') ==> OpensLineComment(d, rest)
    ensures OpensLineComment(d, rest) && (k > 2 || rest[0] == '#' || (k > 1 && d.PostgreSQL?)) ==> OpensLineComment(d, rest')
    ensures IsPlaceholder(d, rest') ==> IsPlaceholder(d, rest)
    ensures OpensDollarQuote(d, rest') ==> OpensDollarQuote(d, rest)
    ensures k > 1 ==> OpensDollarQuote(d, rest') == OpensDollarQuote(d, rest)
  {
    assert rest[..k][0] == rest'[..k][0];
    if k > 1 { assert rest[..k][1] == rest'[..k][1]; }
    if k > 2 { assert rest[..k][2] == rest'[..k][2]; }
  }

  lemma QuotedLexLocal(rest: string, rest': string, q: char, escapes: bool, k: nat, n: nat)
    requires Agree(rest, rest', k) && q != '\\' && 0 < n <= k && QuotedTail(rest[1..], q, escapes) == Some(n - 1)
    requires n == k ==> q != '\''
    ensures QuotedTail(rest'[1..], q, escapes) == Some(n - 1)
  {
    hide QuotedTail;
    var (t, t') := (rest[1..], rest'[1..]);
    assert t[..n - 1] == rest[..k][1..][..n - 1] == rest'[..k][1..][..n - 1] == t'[..n - 1];
    QuotedTailIsBody(t, q, escapes, n - 1);
    assert t[n - 1..] == rest[n..] && t'[n - 1..] == rest'[n..];
    if n < k {
      assert rest[n..][0] == rest[..k][n] == rest'[..k][n] == rest'[n..][0];
    }
    QuotedLocal(t, t', q, escapes, n - 1);
  }

  // A token that ends before or at k, and does not run on, is the same in both texts.
  lemma LexLocal(d: Engine, before: string, rest: string, rest': string, k: nat, n: nat)
    requires Agree(rest, rest', k) && Lex(d, before, rest) == Token(n) && n <= k
    requires n == k ==> rest[0] != '\'' && !OpensLineComment(d, rest)
    ensures Lex(d, before, rest') == Token(n)
  {
    hide QuotedTail, Through, DollarTail, LineLength, OpensLineComment, IsPlaceholder, OpensDollarQuote, Escapes;
    OpeningsAgree(d, rest, rest', k);
    assert rest[..n] == rest[..k][..n] == rest'[..k][..n] == rest'[..n];
    assert n < k ==> rest[n] == rest[..k][n] == rest'[..k][n] == rest'[n];
    var (c, t, t') := (rest[0], rest[1..], rest'[1..]);
    assert t[..n - 1] == rest[..n][1..] == rest'[..n][1..] == t'[..n - 1];
    if c in {'\'', '"', '`'} {
      QuotedLexLocal(rest, rest', c, c == '\'' && Escapes(d, before), k, n);
    } else if OpensLineComment(d, rest) {
      CommentLocal(d, rest, rest', k, n);
    } else if c == '/' && |rest| > 1 && rest[1] == '*' {
      assert n > 1 && rest[2..][..n - 2] == rest[..n][2..] == rest'[..n][2..] == rest'[2..][..n - 2];
      ThroughLocal(rest[2..], rest'[2..], "*/", n - 2);
    } else if OpensDollarQuote(d, rest) {
      DollarLocal(t, t', n - 1);
    }
  }

  lemma CommentLocal(d: Engine, rest: string, rest': string, k: nat, n: nat)
    requires Agree(rest, rest', k) && OpensLineComment(d, rest) && n == LineLength(rest) < k
    ensures OpensLineComment(d, rest') && LineLength(rest') == n
  {
    OpeningsAgree(d, rest, rest', k);
    assert rest[..n + 1] == rest[..k][..n + 1] == rest'[..k][..n + 1] == rest'[..n + 1];
    LineLocal(rest, rest', n);
  }

  // Two minus signs at the end are a comment in MySQL; with a quote behind them they are not.
  lemma DashesSplit(before: string, rest: string, rest': string)
    requires Agree(rest, rest', 2) && rest[0] == '-' && OpensLineComment(MySQL, rest)
    ensures Tiled(MySQL, before, rest', 2)
  {
    assert rest[..2][0] == rest'[..2][0] && rest[..2][1] == rest'[..2][1];
    assert Lex(MySQL, before, rest') == Token(1);
    var (b, r) := (before + rest'[..1], rest'[1..]);
    assert r[0] == '-' && r[1] == '\'' && Lex(MySQL, b, r) == Token(1);
    assert Tiled(MySQL, b + r[..1], r[1..], 0);
    assert Tiled(MySQL, b, r, 1);
  }

  // A last token that runs on leaves no boundary before the quote.
  lemma RunsOnBreaks(d: Engine, before: string, rest: string, rest': string, k: nat)
    requires Agree(rest, rest', k) && Lex(d, before, rest) == Token(k) && RunsOn(d, rest, k)
    ensures !Tiled(d, before, rest', k)
  {
    hide QuotedTail, Through, DollarTail, LineLength, Escapes;
    OpeningsAgree(d, rest, rest', k);
    var x := Lex(d, before, rest');
    if rest[0] == '\'' {
      var (t, t', escapes) := (rest[1..], rest'[1..], Escapes(d, before));
      if x.Token? && x.length <= k {
        var j := x.length - 1;
        QuotedTailIsBody(t', '\'', escapes, j);
        assert t'[j..] == rest'[j + 1..] && j + 1 < k;
        forall i | 0 <= i <= j ensures t[i] == t'[i] {
          assert rest[..k][i + 1] == rest'[..k][i + 1];
        }
        assert t[..j] == t'[..j] && t[j..][0] == t'[j..][0];
        QuotedLocal(t', t, '\'', escapes, j);
        assert false;
      }
    } else {
      assert OpensLineComment(d, rest) && OpensLineComment(d, rest');
      forall i | 0 <= i < k ensures rest'[i] != '\n' {
        assert rest'[..k][i] == rest[..k][i];
      }
      assert x == Token(LineLength(rest')) && x.length > k;
    }
  }

  // A quote put behind tokens leaves them a tiling unless the last of them runs on.
  lemma {:induction false} FreeIsExact(d: Engine, before: string, rest: string, rest': string, k: nat)
    requires Agree(rest, rest', k) && Tiled(d, before, rest, k)
    ensures Tiled(d, before, rest', k) <==> Free(d, before, rest, k)
    decreases k
  {
    hide Lex, OpensLineComment, Escapes;
    var n := Lex(d, before, rest).length;
    if n < k {
      LexLocal(d, before, rest, rest', k, n);
      assert rest[..n] == rest[..k][..n] == rest'[..k][..n] == rest'[..n];
      assert rest[n..][..k - n] == rest[..k][n..] == rest'[..k][n..] == rest'[n..][..k - n];
      FreeIsExact(d, before + rest[..n], rest[n..], rest'[n..], k - n);
    } else if RunsOn(d, rest, k) {
      RunsOnBreaks(d, before, rest, rest', k);
    } else if OpensLineComment(d, rest) {
      DashesSplit(before, rest, rest');
    } else {
      LexLocal(d, before, rest, rest', k, n);
      assert Tiled(d, before + rest'[..n], rest'[n..], 0);
    }
  }

  // A properly quoted literal put between two tokens is lexed as one token of its own, and leaves those before it whole,
  // if and only if the token before it does not run on and the text behind it does not start with a quote.
  lemma LiteralStandsAlone(d: Engine, a: string, x: string, b: string)
    requires Tiled(d, [], a + b, |a|) && Body(x, '\'', Escapes(d, a))
    ensures Tiled(d, [], a + (Literal(x) + b), |a|) && Lex(d, a, Literal(x) + b) == Token(|x| + 2)
      <==> Free(d, [], a + b, |a|) && !StartsWith(b, '\'')
  {
    hide Lex, Tiled, Free, Escapes, Body;
    var l := Literal(x) + b;
    if a == [] {
      NothingTiled(d, a + b);
      NothingTiled(d, a + l);
    } else {
      assert (a + b)[..|a|] == a == (a + l)[..|a|];
      FreeIsExact(d, [], a + b, a + l, |a|);
    }
    LiteralIsToken(d, a, x, b);
  }

  lemma NothingTiled(d: Engine, rest: string)
    ensures Tiled(d, [], rest, 0) && Free(d, [], rest, 0)
  {
  }

  // ---- The verdict ----

  lemma LexContext(d: Engine, b: string, b': string, rest: string)
    requires rest != [] && (StartsWith(rest, '\'') ==> Escapes(d, b) == Escapes(d, b'))
    ensures Lex(d, b, rest) == Lex(d, b', rest)
  {
    hide QuotedTail, Escapes, Through, DollarTail, LineLength, OpensLineComment, IsPlaceholder, OpensDollarQuote;
  }

  // The text behind an insertion is scanned as before, unless its first characters turn from the end of an identifier
  // into the prefix of an escape string.
  lemma {:induction false} SuffixScan(d: Engine, b: string, b': string, rest: string)
    requires StartsWith(rest, '\'') ==> Escapes(d, b) == Escapes(d, b')
    requires |rest| > 1 && rest[1] == '\'' ==> Escapes(d, b + rest[..1]) == Escapes(d, b' + rest[..1])
    ensures Scan(d, b, rest) == Scan(d, b', rest)
    decreases |rest|
  {
    if rest != [] {
      hide Lex;
      var x := Lex(d, b, rest);
      LexContext(d, b, b', rest);
      if x.Token? {
        var n := x.length;
        if n > 1 {
          EscapesOfTail(d, b, b', rest[..n]);
        }
        if n < |rest| {
          EscapesOfTail(d, b, b', rest[..n + 1]);
          OneMore(b, rest, n);
          OneMore(b', rest, n);
        }
        SuffixScan(d, b + rest[..n], b' + rest[..n], rest[n..]);
      }
    }
  }

  lemma OneMore(b: string, rest: string, n: nat)
    requires n < |rest|
    ensures b + rest[..n] + rest[n..][..1] == b + rest[..n + 1]
    ensures |rest[n..]| > 1 ==> rest[n..][1] == rest[n + 1]
  {
  }

  lemma EscapesOfTail(d: Engine, b: string, b': string, x: string)
    requires |x| > 1
    ensures Escapes(d, b + x) == Escapes(d, b' + x)
  {
    var n := |x|;
    assert (b + x)[|b + x| - 1] == x[n - 1] == (b' + x)[|b' + x| - 1];
    assert (b + x)[|b + x| - 2] == x[n - 2] == (b' + x)[|b' + x| - 2];
  }

  lemma ScanAcrossLiteral(d: Engine, a: string, x: string, b: string)
    requires Tiled(d, [], a + (Literal(x) + b), |a|) && Lex(d, a, Literal(x) + b) == Token(|x| + 2)
    ensures Scan(d, [], a + (Literal(x) + b)) == Scan(d, a + Literal(x), b)
  {
    hide Lex, Tiled;
    var l := Literal(x) + b;
    ScanSkipsTiles(d, [], a + l, |a|);
    assert [] + (a + l)[..|a|] == a && (a + l)[|a|..] == l;
    assert l[..|x| + 2] == Literal(x) && l[|x| + 2..] == b;
  }

  lemma QuoteOpens(d: Engine, before: string, rest: string)
    requires StartsWith(rest, '\'')
    ensures Lex(d, before, rest) == Delimited(1, QuotedTail(rest[1..], '\'', Escapes(d, before)))
  {
    hide QuotedTail, Escapes, Through, DollarTail, LineLength;
  }

  lemma LiteralParts(x: string, b: string)
    ensures var l := Literal(x) + b;
      l[0] == '\'' && l[1..] == x + ("'" + b) && l[1..][..|x|] == x && l[1..][|x|] == '\'' && l[1..][|x| + 1..] == b
  {
    var l := Literal(x) + b;
    assert l[1..] == x + ("'" + b);
    assert (x + ("'" + b))[|x|..] == "'" + b;
  }

  lemma LiteralIsToken(d: Engine, a: string, x: string, b: string)
    requires Body(x, '\'', Escapes(d, a))
    ensures Lex(d, a, Literal(x) + b) == Token(|x| + 2) <==> !StartsWith(b, '\'')
  {
    hide Lex, QuotedTail, Escapes, Body;
    var l := Literal(x) + b;
    LiteralParts(x, b);
    QuoteOpens(d, a, l);
    QuotedTailIsBody(l[1..], '\'', Escapes(d, a), |x| + 1);
  }

  // The contents of a literal never matter: any two that are properly quoted give the same verdict.
  lemma ContentsDoNotMatter(d: Engine, a: string, x: string, y: string, b: string)
    requires Tiled(d, [], a + (Literal(x) + b), |a|) && !StartsWith(b, '\'')
    requires Body(x, '\'', Escapes(d, a)) && Body(y, '\'', Escapes(d, a))
    ensures Scan(d, [], a + (Literal(x) + b)) == Scan(d, [], a + (Literal(y) + b))
  {
    hide Lex, Tiled, Free, Escapes, Body, Scan;
    var (l, l') := (Literal(x) + b, Literal(y) + b);
    if a != [] {
      assert (a + l)[..|a|] == a == (a + l')[..|a|];
      FreeIsExact(d, [], a + l, a + l, |a|);
      FreeIsExact(d, [], a + l, a + l', |a|);
    } else {
      NothingTiled(d, a + l');
    }
    LiteralIsToken(d, a, x, b);
    LiteralIsToken(d, a, y, b);
    ScanAcrossLiteral(d, a, x, b);
    ScanAcrossLiteral(d, a, y, b);
    if b != [] { QuotesEndNothing(d, a, x, y, b); }
    SuffixScan(d, a + Literal(x), a + Literal(y), b);
  }

  lemma QuotesEndNothing(d: Engine, a: string, x: string, y: string, b: string)
    requires b != []
    ensures Escapes(d, a + Literal(x)) == Escapes(d, a + Literal(y))
    ensures Escapes(d, a + Literal(x) + b[..1]) == Escapes(d, a + Literal(y) + b[..1])
  {
    forall z ensures (a + Literal(z))[|a + Literal(z)| - 1] == '\'' {}
  }

  // A line comment at the end of the text swallows the quote, and the literal's second line is scanned as code.
  lemma CommentSwallowsQuote()
    ensures Scan(PostgreSQL, [], "--") == Clean
    ensures Scan(PostgreSQL, [], "--" + (Literal("\n$1") + "")) == Found
  {
    var s := "--'\n$1'";
    assert "--" + (Literal("\n$1") + "") == s;
    assert LineLength("--") == 2 by { assert "--"[1..] == "-" && "-"[1..] == ""; }
    assert LineLength(s) == 3 by { assert s[1..] == "-'\n$1'" && s[1..][1..] == "'\n$1'" && s[1..][1..][1..] == "\n$1'"; }
    assert s[3..] == "\n$1'" && s[3..][1..] == "$1'";
    assert Lex(PostgreSQL, s[..3], s[3..]) == Token(1);
  }

  // The first two tokens, of one character and of n, and then the rest.
  lemma ScanTwo(d: Engine, sql: string, n: nat)
    requires 1 + n <= |sql| && Lex(d, [], sql) == Token(1) && n > 0 && Lex(d, sql[..1], sql[1..]) == Token(n)
    ensures Scan(d, [], sql) == Scan(d, sql[..1 + n], sql[1 + n..])
  {
    hide Lex;
    assert [] + sql[..1] == sql[..1] && sql[..1] + sql[1..][..n] == sql[..1 + n] && sql[1..][n..] == sql[1 + n..];
  }

  // Behind an identifier the E of E'\\' is its last letter, and the text is closed.
  lemma QuoteBehindIdentifier()
    ensures Scan(PostgreSQL, [], "aE'\\'") == Clean
  {
    var s := "aE'\\'";
    ScanTwo(PostgreSQL, s, 1);
    assert s[2..][1..] == "\\'" && "\\'"[1..] == "'" && s[2..][3..] == [];
    assert QuotedTail("\\'", '\'', false) == Some(2);
  }

  lemma EscapeNeverClosed()
    ensures Lex(PostgreSQL, "a''E", "'\\'") == Open
  {
    var t := "\\'";
    QuoteOpens(PostgreSQL, "a''E", "'\\'");
    assert "'\\'"[1..] == t && t[2..] == [] && QuotedTail(t, '\'', true) == None;
  }

  // Behind a literal it starts an escape string, which is never closed.
  lemma LiteralDetachesPrefix()
    ensures Scan(PostgreSQL, [], "a" + (Literal("") + "E'\\'")) == Unclosed
  {
    hide Through, DollarTail, LineLength;
    var t := "a''E'\\'";
    assert "a" + (Literal("") + "E'\\'") == t;
    assert t[1..][1..] == "'E'\\'" && QuotedTail("'E'\\'", '\'', false) == Some(1);
    ScanTwo(PostgreSQL, t, 2);
    hide QuotedTail, Escapes;
    var (b, r) := (t[..3], t[3..]);
    assert b + r[..1] == "a''E" && r[1..] == "'\\'";
    EscapeNeverClosed();
  }

  // ---- Quoted names ----

  function Doubled(name: string, q: char): string
  {
    if name == [] then [] else (if name[0] == q then [q, q] else [name[0]]) + Doubled(name[1..], q)
  }

  function NameQuote(d: Engine): char { if d.PostgreSQL? then '"' else '`' }

  // quoteIdent of the adapter
  function QuoteIdent(d: Engine, name: string): string { [NameQuote(d)] + Doubled(name, NameQuote(d)) + [NameQuote(d)] }

  lemma {:induction false} DoubledIsBody(name: string, q: char)
    requires q != '\\'
    ensures Body(Doubled(name, q), q, false)
  {
    if name != [] {
      DoubledIsBody(name[1..], q);
      var rest := Doubled(name[1..], q);
      assert ([q, q] + rest)[2..] == rest && ([name[0]] + rest)[1..] == rest;
    }
  }

  // What a reader of doubled quotes makes of a text.
  function Undoubled(s: string, q: char): string
  {
    if s == [] then []
    else if s[0] == q && |s| > 1 && s[1] == q then [q] + Undoubled(s[2..], q)
    else [s[0]] + Undoubled(s[1..], q)
  }

  lemma {:induction false} DoubledIsUndone(name: string, q: char)
    ensures Undoubled(Doubled(name, q), q) == name
  {
    if name != [] {
      var rest := Doubled(name[1..], q);
      DoubledIsUndone(name[1..], q);
      assert ([q, q] + rest)[2..] == rest && ([name[0]] + rest)[1..] == rest;
      assert name == [name[0]] + name[1..];
    }
  }

  // A quoted name stands between double quotes in PostgreSQL and between backticks in MySQL, and is read as the name.
  lemma QuotedNameIsRead(d: Engine, name: string)
    ensures var (q, s) := (if d.PostgreSQL? then '"' else '`', QuoteIdent(d, name));
      |s| >= 2 && s[0] == q && s[|s| - 1] == q && Undoubled(s[1..|s| - 1], q) == name
  {
    DoubledIsUndone(name, NameQuote(d));
    var s := QuoteIdent(d, name);
    assert s[1..|s| - 1] == Doubled(name, NameQuote(d));
  }

  // A quoted name, whatever it contains, is skipped as exactly one token.
  lemma QuotedNameIsOneToken(d: Engine, before: string, name: string, rest: string)
    requires !StartsWith(rest, NameQuote(d))
    ensures Lex(d, before, QuoteIdent(d, name) + rest) == Token(|QuoteIdent(d, name)|)
  {
    var (q, x) := (NameQuote(d), Doubled(name, NameQuote(d)));
    DoubledIsBody(name, q);
    var l := QuoteIdent(d, name) + rest;
    hide Doubled, QuotedTail;
    assert l[1..][|x| + 1..] == rest && l[1..][..|x|] == x;
    QuotedTailIsBody(l[1..], q, false, |x| + 1);
  }
}
