/** When a quoted literal can be inserted between two tokens, whatever it contains, without changing the verdict of the
    placeholder scanner (apps/api/internal/sqlpolicy/placeholder.go). */
module Insertions {
  import opened Prelude
  import opened Sql
  import opened Lexemes
  import opened Placeholders

  // ---- The token before the insertion ----

  // Where the last of the tokens that make up rest[..k] begins.
  function LastToken(d: Engine, before: string, rest: string, k: nat): (p: nat)
    requires k > 0 && Tiled(d, before, rest, k)
    ensures p < k <= |rest|
    decreases k
  {
    var n := Lex(d, before, rest).length;
    if n == k then 0 else n + LastToken(d, before + rest[..n], rest[n..], k - n)
  }

  lemma {:induction false} LastTokenStands(d: Engine, before: string, rest: string, k: nat)
    requires k > 0 && Tiled(d, before, rest, k)
    ensures var p := LastToken(d, before, rest, k);
      Lex(d, before + rest[..p], rest[p..]) == Token(k - p)
      && (Free(d, before, rest, k) <==> !RunsOn(d, rest[p..], k - p))
    decreases k
  {
    hide Lex, RunsOn;
    var n := Lex(d, before, rest).length;
    if n == k {
      assert before + rest[..0] == before && rest[0..] == rest;
    } else {
      LastTokenStands(d, before + rest[..n], rest[n..], k - n);
      Further(before, rest, n, LastToken(d, before + rest[..n], rest[n..], k - n));
    }
  }

  lemma Further(before: string, rest: string, n: nat, m: nat)
    requires n + m <= |rest|
    ensures before + rest[..n] + rest[n..][..m] == before + rest[..n + m] && rest[n..][m..] == rest[n + m..]
  {
  }

  // The tokens before it are the same whatever follows.
  lemma {:induction false} TilesAgree(d: Engine, before: string, rest: string, rest': string, k: nat)
    requires Agree(rest, rest', k) && Tiled(d, before, rest, k)
    ensures Tiled(d, before, rest', LastToken(d, before, rest, k))
    decreases k
  {
    hide Lex;
    var n := Lex(d, before, rest).length;
    if n < k {
      LexLocal(d, before, rest, rest', k, n);
      assert rest[..n] == rest[..k][..n] == rest'[..k][..n] == rest'[..n];
      assert rest[n..][..k - n] == rest[..k][n..] == rest'[..k][n..] == rest'[n..][..k - n];
      TilesAgree(d, before + rest[..n], rest[n..], rest'[n..], k - n);
    }
  }

  // Both texts are scanned from the last token on: tok is that token, a0 what is before it.
  lemma ScanFromLast(d: Engine, a: string, b: string, u: string)
    requires a != [] && Tiled(d, [], a + b, |a|) && StartsWith(u, '\'')
    ensures var p := LastToken(d, [], a + b, |a|);
      && Lex(d, a[..p], a[p..] + b) == Token(|a| - p)
      && Scan(d, [], a + u) == Scan(d, a[..p], a[p..] + u)
      && (Free(d, [], a + b, |a|) <==> !RunsOn(d, a[p..] + b, |a| - p))
  {
    hide Lex, Tiled, Free, RunsOn, Scan;
    var p := LastToken(d, [], a + b, |a|);
    LastTokenStands(d, [], a + b, |a|);
    assert (a + b)[..|a|] == a == (a + u)[..|a|] && (a + u)[|a|] == '\'';
    TilesAgree(d, [], a + b, a + u, |a|);
    ScanSkipsTiles(d, [], a + u, p);
    assert [] + (a + b)[..p] == a[..p] == [] + (a + u)[..p];
    assert (a + b)[p..] == a[p..] + b && (a + u)[p..] == a[p..] + u;
  }

  // ---- Reading on inside quotes ----

  lemma QuotedPastPair(s: string, x: string, t: string, q: char, escapes: bool)
    requires s == x + t && |x| > 1 && ((x[0] == '\\' && escapes) || (x[0] == q && x[1] == q))
    ensures QuotedTail(s, q, escapes) == Plus(2, QuotedTail(x[2..] + t, q, escapes))
  {
    assert s[2..] == x[2..] + t && s[0] == x[0] && s[1] == x[1];
  }

  lemma QuotedPastOne(s: string, x: string, t: string, q: char, escapes: bool)
    requires s == x + t && x != [] && !(x[0] == '\\' && escapes) && x[0] != q
    ensures QuotedTail(s, q, escapes) == Plus(1, QuotedTail(x[1..] + t, q, escapes))
  {
    assert s[1..] == x[1..] + t && s[0] == x[0];
  }

  lemma {:induction false} QuotedPastBody(x: string, t: string, q: char, escapes: bool)
    requires q != '\\' && Body(x, q, escapes)
    ensures QuotedTail(x + t, q, escapes) == Plus(|x|, QuotedTail(t, q, escapes))
    decreases |x|
  {
    hide QuotedTail;
    if x == [] {
      assert x + t == t;
    } else if (x[0] == '\\' && escapes) || x[0] == q {
      QuotedPastPair(x + t, x, t, q, escapes);
      QuotedPastBody(x[2..], t, q, escapes);
    } else {
      QuotedPastOne(x + t, x, t, q, escapes);
      QuotedPastBody(x[1..], t, q, escapes);
    }
  }

  lemma DoubledQuote(t: string, q: char, escapes: bool)
    requires q != '\\'
    ensures QuotedTail([q, q] + t, q, escapes) == Plus(2, QuotedTail(t, q, escapes))
  {
    assert ([q, q] + t)[2..] == t;
  }

  // A literal directly before another one merges with it.
  lemma QuotedMerges(x: string, b: string, q: char, escapes: bool)
    requires q != '\\' && Body(x, q, escapes) && StartsWith(b, q)
    ensures QuotedTail(x + ([q] + b), q, escapes) == Plus(|x| + 2, QuotedTail(b[1..], q, escapes))
  {
    hide QuotedTail, Body;
    QuotedPastBody(x, [q] + b, q, escapes);
    assert [q] + b == [q, q] + b[1..];
    DoubledQuote(b[1..], q, escapes);
  }

  // b starts with the E of a quoted text that a, ending in an identifier, keeps from being an escape string.
  predicate Detaches(d: Engine, a: string, b: string)
  {
    && d.PostgreSQL? && |b| > 1 && b[0] in {'E', 'e'} && b[1] == '\''
    && a != [] && IdentContinuation(a[|a| - 1])
  }

  // ---- Behind a token that a literal does not run on from ----

  // What ends with a quote says nothing about the text behind it.
  lemma ScanBehindQuotes(d: Engine, u: string, v: string, rest: string)
    requires u != [] && v != [] && u[|u| - 1] == '\'' && v[|v| - 1] == '\''
    ensures Scan(d, u, rest) == Scan(d, v, rest)
  {
    hide Scan;
    assert rest != [] ==> (u + rest[..1])[|u|] == rest[0] == (v + rest[..1])[|v|];
    assert rest != [] ==> (u + rest[..1])[|u| - 1] == '\'' == (v + rest[..1])[|v| - 1];
    SuffixScan(d, u, v, rest);
  }

  lemma ScanToken(d: Engine, before: string, rest: string, n: nat)
    requires rest != [] && Lex(d, before, rest) == Token(n)
    ensures n <= |rest| && Scan(d, before, rest) == Scan(d, before + rest[..n], rest[n..])
  {
    hide Lex;
  }

  // A quoted text read from a quote on, when its tail is known.
  lemma ScanQuoted(d: Engine, before: string, rest: string, v: string)
    requires StartsWith(rest, '\'') && v != [] && v[|v| - 1] == '\''
    ensures var r := QuotedTail(rest[1..], '\'', Escapes(d, before));
      Scan(d, before, rest) == if r.None? then Unclosed else Scan(d, v, rest[1 + r.value..])
  {
    QuoteOpens(d, before, rest);
    var r := QuotedTail(rest[1..], '\'', Escapes(d, before));
    if r.Some? {
      var n := 1 + r.value;
      ScanToken(d, before, rest, n);
      QuotedTailIsBody(rest[1..], '\'', Escapes(d, before), r.value);
      assert (before + rest[..n])[|before| + n - 1] == rest[n - 1] == rest[1..][r.value - 1] == '\'';
      hide Scan;
      ScanBehindQuotes(d, before + rest[..n], v, rest[n..]);
    }
  }

  // In front of another literal the inserted one merges with it, and the verdict stays.
  lemma BeforeLiteral(d: Engine, a: string, x: string, b: string)
    requires Body(x, '\'', Escapes(d, a)) && StartsWith(b, '\'')
    ensures Scan(d, a, Literal(x) + b) == Scan(d, a, b)
  {
    hide Scan, QuotedTail, Body, Escapes;
    LiteralParts(x, b);
    var l := Literal(x) + b;
    QuotedMerges(x, b, '\'', Escapes(d, a));
    ScanQuoted(d, a, l, "'");
    ScanQuoted(d, a, b, "'");
    var r := QuotedTail(b[1..], '\'', Escapes(d, a));
    if r.Some? {
      assert l == Literal(x) + b && |Literal(x)| == |x| + 2;
      assert l[1 + (|x| + 2 + r.value)..] == b[1 + r.value..];
    }
  }

  // Behind a literal of its own, b is scanned as behind a, unless the escape prefix at its beginning is detached from a.
  lemma BehindLiteral(d: Engine, a: string, x: string, b: string)
    requires !StartsWith(b, '\'')
    ensures Scan(d, a + Literal(x), b) == if Detaches(d, a, b) then Scan(d, [], b) else Scan(d, a, b)
  {
    hide Scan;
    var u := a + Literal(x);
    assert u[|u| - 1] == '\'';
    if |b| > 1 && b[1] == '\'' {
      assert (u + b[..1])[|u|] == b[0] && (u + b[..1])[|u| - 1] == '\'';
      assert ([] + b[..1])[0] == b[0];
      assert (a + b[..1])[|a|] == b[0] && (a != [] ==> (a + b[..1])[|a| - 1] == a[|a| - 1]);
    }
    SuffixScan(d, u, if Detaches(d, a, b) then [] else a, b);
  }

  lemma FreeInsertion(d: Engine, a: string, x: string, b: string)
    requires Free(d, [], a + b, |a|) && Body(x, '\'', Escapes(d, a))
    ensures Scan(d, [], a + (Literal(x) + b)) == if Detaches(d, a, b) then Scan(d, [], b) else Scan(d, a, b)
  {
    hide Lex, Tiled, Free, Body, Scan, Escapes;
    FreeIsTiled(d, [], a + b, |a|);
    if StartsWith(b, '\'') {
      var l := Literal(x) + b;
      LiteralParts(x, b);
      if a == [] {
        NothingTiled(d, a + l);
      } else {
        assert (a + b)[..|a|] == a == (a + l)[..|a|];
        FreeIsExact(d, [], a + b, a + l, |a|);
      }
      ScanSkipsTiles(d, [], a + l, |a|);
      assert [] + (a + l)[..|a|] == a && (a + l)[|a|..] == l;
      BeforeLiteral(d, a, x, b);
    } else {
      LiteralStandsAlone(d, a, x, b);
      ScanAcrossLiteral(d, a, x, b);
      BehindLiteral(d, a, x, b);
    }
  }

  // ---- Behind another literal ----

  lemma TailParts(tok: string, b: string, escapes: bool)
    requires tok != [] && QuotedTail((tok + b)[1..], '\'', escapes) == Some(|tok| - 1)
    ensures |tok| > 1 && tok[|tok| - 1] == '\'' && Body(tok[1..|tok| - 1], '\'', escapes) && !StartsWith(b, '\'')
  {
    hide QuotedTail, Body;
    var t := (tok + b)[1..];
    QuotedTailIsBody(t, '\'', escapes, |tok| - 1);
    assert t[..|tok| - 2] == tok[1..|tok| - 1] && t[|tok| - 1..] == b && t[|tok| - 2] == tok[|tok| - 1];
  }

  lemma QuotesMeet(tok: string, x: string, b: string)
    requires |tok| > 1 && tok[|tok| - 1] == '\''
    ensures (tok + (Literal(x) + b))[1..] == tok[1..|tok| - 1] + (['\'', '\''] + (x + ("'" + b)))
  {
    assert tok[1..] == tok[1..|tok| - 1] + "'";
    assert (tok + (Literal(x) + b))[1..] == tok[1..] + (Literal(x) + b);
  }

  // The tail of the literal before, run on into the inserted one.
  lemma RunsIntoLiteral(tok: string, x: string, b: string, escapes: bool)
    requires tok != [] && QuotedTail((tok + b)[1..], '\'', escapes) == Some(|tok| - 1)
    ensures |tok| > 1
    ensures QuotedTail((tok + (Literal(x) + b))[1..], '\'', escapes) == Plus(|tok|, QuotedTail(x + ("'" + b), '\'', escapes))
    ensures !StartsWith(b, '\'')
  {
    hide QuotedTail, Body, Literal;
    TailParts(tok, b, escapes);
    QuotesMeet(tok, x, b);
    var more := x + ("'" + b);
    QuotedPastBody(tok[1..|tok| - 1], ['\'', '\''] + more, '\'', escapes);
    DoubledQuote(more, '\'', escapes);
  }

  // Where the literal before follows the same escape rule as the inserted one, they merge and the verdict stays.
  lemma BehindSameLiteral(d: Engine, a: string, x: string, b: string, p: nat)
    requires p < |a| && a[p] == '\'' && Lex(d, a[..p], a[p..] + b) == Token(|a| - p)
    requires Escapes(d, a[..p]) == Escapes(d, a) && Body(x, '\'', Escapes(d, a))
    ensures Scan(d, a[..p], a[p..] + (Literal(x) + b)) == Scan(d, a, b)
  {
    hide Scan, Escapes;
    var (a0, tok, e) := (a[..p], a[p..], Escapes(d, a));
    QuoteOpens(d, a0, tok + b);
    hide Lex, QuotedTail, Body;
    RunsIntoLiteral(tok, x, b, e);
    QuotedPastBody(x, "'" + b, '\'', e);
    ClosesAt(b, e);
    var rest := tok + (Literal(x) + b);
    ScanQuoted(d, a0, rest, a) by { LastIsQuote(d, a, b, p); }
    assert rest[1 + (|tok| + |x| + 1)..] == b;
  }

  lemma ClosesAt(b: string, escapes: bool)
    requires !StartsWith(b, '\'')
    ensures QuotedTail("'" + b, '\'', escapes) == Some(1)
  {
    assert ("'" + b)[0] == '\'' && (b != [] ==> ("'" + b)[1] == b[0]);
  }

  lemma LastIsQuote(d: Engine, a: string, b: string, p: nat)
    requires p < |a| && a[p] == '\'' && Lex(d, a[..p], a[p..] + b) == Token(|a| - p)
    ensures a[|a| - 1] == '\''
  {
    QuoteOpens(d, a[..p], a[p..] + b);
    QuotedTailIsBody((a[p..] + b)[1..], '\'', Escapes(d, a[..p]), |a| - p - 1);
    assert (a[p..] + b)[1..][|a| - p - 2] == a[|a| - 1];
  }

  // ---- Texts that stand out of a literal once it is not read as one ----

  lemma {:induction false} PlainBody(w: string, q: char, escapes: bool)
    requires q !in w && '\\' !in w
    ensures Body(w, q, escapes)
    decreases |w|
  {
    if w != [] {
      assert w[0] in w && forall c :: c in w[1..] ==> c in w;
      PlainBody(w[1..], q, escapes);
    }
  }

  function Tag(n: nat): (t: string)
    ensures |t| == n && forall i :: 0 <= i < n ==> t[i] == 't'
  {
    if n == 0 then [] else ['t'] + Tag(n - 1)
  }

  lemma {:induction false} ThroughTag(n: nat, u: string)
    ensures Through(Tag(n) + ("$" + u), "$") == Some(n + 1)
  {
    var s := Tag(n) + ("$" + u);
    assert s[..1] == [s[0]];
    if n > 0 {
      assert s[1..] == Tag(n - 1) + ("$" + u);
      ThroughTag(n - 1, u);
    }
  }

  // A placeholder, and a dollar quote too long to be closed by what follows.
  lemma NumberIsFound(before: string, u: string)
    ensures Scan(PostgreSQL, before, "$1" + u) == Found
  {
    var s := "$1" + u;
    assert s[0] == '$' && s[1] == '1' && Lex(PostgreSQL, before, s) == Hit;
  }

  function LongQuote(n: nat): string { "$" + (Tag(n + 2) + "$") }

  lemma LongQuoteIsOpen(before: string, u: string)
    ensures Scan(PostgreSQL, before, LongQuote(|u|) + u) == Unclosed
  {
    var n := |u| + 2;
    var s := LongQuote(|u|) + u;
    var t := Tag(n) + ("$" + u);
    assert s == "$" + t && s[1..] == t && s[1] == Tag(n)[0] == 't';
    ThroughTag(n, u);
    assert t[n + 1..] == u;
    hide Through, QuotedTail, LineLength;
    assert DollarTail(t) == None by { ShortTextHasNoMark(u, "$" + t[..n] + "$"); }
    assert Lex(PostgreSQL, before, s) == Open;
  }

  lemma ShortTextHasNoMark(t: string, mark: string)
    requires |t| < |mark|
    ensures Through(t, mark) == None
  {
  }

  // ---- Behind an escape string in PostgreSQL ----

  // A backslash and two quotes are plain text and a quote to the inserted literal; to the escape string before it, an
  // escaped quote and its end: what follows stands in normal context.
  lemma EscapeStringExposes(a: string, b: string, p: nat, w: string)
    requires p < |a| && a[p] == '\'' && Lex(PostgreSQL, a[..p], a[p..] + b) == Token(|a| - p) && Escapes(PostgreSQL, a[..p])
    requires w != [] && w[0] != '\''
    ensures Scan(PostgreSQL, a[..p], a[p..] + (Literal("\\''" + w) + b)) == Scan(PostgreSQL, "'", w + ("'" + b))
  {
    hide Lex, Scan, Escapes, QuotedTail, Literal;
    var (a0, tok, y) := (a[..p], a[p..], Literal("\\''" + w) + b);
    QuoteOpens(PostgreSQL, a0, tok + b);
    EscapeStringTail(tok, b, w);
    ScanQuoted(PostgreSQL, a0, tok + y, "'");
    AfterFour(w, b);
    Spliced(a0, tok, y, 4);
  }

  lemma EscapeStringTail(tok: string, b: string, w: string)
    requires tok != [] && tok[0] == '\'' && QuotedTail((tok + b)[1..], '\'', true) == Some(|tok| - 1)
    requires w != [] && w[0] != '\''
    ensures QuotedTail((tok + (Literal("\\''" + w) + b))[1..], '\'', true) == Some(|tok| + 3)
  {
    hide QuotedTail, Literal;
    RunsIntoLiteral(tok, "\\''" + w, b, true);
    assert "\\''" + w + ("'" + b) == "\\''" + (w + ("'" + b));
    EndsAfterThree(w + ("'" + b));
  }

  lemma Spliced(before: string, tok: string, u: string, m: nat)
    requires m <= |u|
    ensures before + (tok + u)[..|tok| + m] == (before + tok) + u[..m] && (tok + u)[|tok| + m..] == u[m..]
  {
  }

  lemma AfterFour(w: string, b: string)
    ensures (Literal("\\''" + w) + b)[4..] == w + ("'" + b)
  {
    assert Literal("\\''" + w) + b == "'\\''" + (w + ("'" + b));
  }

  lemma EndsAfterThree(v: string)
    requires v != [] && v[0] != '\''
    ensures QuotedTail("\\''" + v, '\'', true) == Some(3)
  {
    var u := "\\''" + v;
    assert u[2..] == "'" + v && u[2..][1] == v[0];
    assert QuotedTail(u[2..], '\'', true) == Some(1);
  }

  // ---- Behind a line comment ----

  lemma {:induction false} LineThrough(t: string, u: string)
    requires '\n' !in t
    ensures LineLength(t + u) == |t| + LineLength(u)
    decreases |t|
  {
    if t == [] {
      assert t + u == u;
    } else {
      assert (t + u)[1..] == t[1..] + u && (t + u)[0] == t[0] && forall c :: c in t[1..] ==> c in t;
      LineThrough(t[1..], u);
    }
  }

  lemma CommentLexeme(d: Engine, before: string, rest: string)
    requires OpensLineComment(d, rest)
    ensures Lex(d, before, rest) == Token(LineLength(rest))
  {
    hide QuotedTail, Through, DollarTail, Escapes, LineLength;
  }

  lemma DashesCount(rest: string)
    requires |rest| > 1 && rest[0] == '-' && rest[1] == '-'
    ensures LineLength(rest) >= 2
  {
    assert rest[1..][0] == '-';
  }

  // A comment that runs on stays one, and goes on through what follows it.
  lemma CommentGrows(d: Engine, tok: string, b: string, u: string)
    requires tok != [] && OpensLineComment(d, tok + b) && |tok| == LineLength(tok + b) && StartsWith(u, '\'')
    requires tok[0] != '\'' && RunsOn(d, tok + b, |tok|)
    ensures OpensLineComment(d, tok + u) && LineLength(tok + u) == |tok| + LineLength(u)
  {
    hide LineLength;
    var (old', new', k) := (tok + b, tok + u, |tok|);
    if old'[0] == '-' { DashesCount(old'); }
    forall c | c in tok ensures c != '\n' {
      var i :| 0 <= i < k && tok[i] == c;
      assert old'[i] == c;
    }
    assert old'[..k] == tok == new'[..k] && new'[k] == '\'';
    OpeningsAgree(d, old', new', k);
    LineThrough(tok, u);
  }

  // The comment swallows the literal as far as its first newline.
  lemma CommentRunsOn(d: Engine, a: string, b: string, p: nat, u: string)
    requires p < |a| && Lex(d, a[..p], a[p..] + b) == Token(|a| - p) && OpensLineComment(d, a[p..] + b)
    requires RunsOn(d, a[p..] + b, |a| - p) && StartsWith(u, '\'')
    ensures Scan(d, a[..p], a[p..] + u) == Scan(d, a + u[..LineLength(u)], u[LineLength(u)..])
  {
    hide Lex, Scan, LineLength, RunsOn;
    var (a0, tok) := (a[..p], a[p..]);
    assert (tok + b)[0] == tok[0] && tok[0] != '\'';
    hide OpensLineComment;
    CommentLexeme(d, a0, tok + b);
    CommentGrows(d, tok, b, u);
    CommentLexeme(d, a0, tok + u);
    ScanToken(d, a0, tok + u, |tok| + LineLength(u));
    Spliced(a0, tok, u, LineLength(u));
    assert a0 + tok == a;
  }

  lemma NewlineIsSkipped(d: Engine, before: string, y: string)
    ensures Scan(d, before, "\n" + y) == Scan(d, before + "\n", y)
  {
    var s := "\n" + y;
    assert Lex(d, before, s) == Token(1) && s[..1] == "\n" && s[1..] == y;
    hide Lex;
    ScanToken(d, before, s, 1);
  }

  // What follows a newline in the literal stands in normal context.
  lemma CommentExposes(d: Engine, a: string, b: string, p: nat, w: string)
    requires p < |a| && Lex(d, a[..p], a[p..] + b) == Token(|a| - p) && OpensLineComment(d, a[p..] + b)
    requires RunsOn(d, a[p..] + b, |a| - p)
    ensures Scan(d, a[..p], a[p..] + (Literal("\n" + w) + b)) == Scan(d, a + "'" + "\n", w + ("'" + b))
  {
    hide Lex, Scan, OpensLineComment, RunsOn;
    var u := Literal("\n" + w) + b;
    assert u[0] == '\'' && u[1] == '\n' && u[1..][0] == '\n' && LineLength(u) == 1 + LineLength(u[1..]) == 1;
    CommentRunsOn(d, a, b, p, u);
    assert u[..1] == "'" && u[1..] == "\n" + (w + ("'" + b));
    NewlineIsSkipped(d, a + "'", w + ("'" + b));
  }

  // ---- Behind a line comment in MySQL ----

  // Nothing before a text changes how MySQL reads it.
  lemma MySQLForgets(u: string, v: string, rest: string)
    ensures Scan(MySQL, u, rest) == Scan(MySQL, v, rest)
  {
    SuffixScan(MySQL, u, v, rest);
  }

  // What leaves the reader inside an element, or in normal context, when the literal's last quote comes.
  function Left(): set<string> { {"", "\"", "`", "/*"} }

  // A placeholder is found in b however it is reached: on a new line, or behind a quote read in any of these contexts.
  ghost predicate FoundAnyway(b: string)
  {
    Scan(MySQL, [], b) == Found && forall w :: w in Left() ==> Scan(MySQL, [], w + ("'" + b)) == Found
  }

  // Quotes opened before the last quote of the literal are closed before it, or by it, or where they would be in b.
  lemma {:induction false} QuotedStraddles(t: string, b: string, q: char, escapes: bool)
    requires q != '\\' && !StartsWith(b, '\'')
    ensures var r := QuotedTail(t + ("'" + b), q, escapes);
      || (r.Some? && r.value <= |t|)
      || (q == '\'' && r == Some(|t| + 1))
      || r == Plus(|t| + 1, QuotedTail(b, q, escapes))
    decreases |t|
  {
    var u := "'" + b;
    if |t| <= 1 {
      FirstStraddles(t, b, q, escapes);
    } else if (t[0] == '\\' && escapes) || (t[0] == q && t[1] == q) {
      QuotedPastPair(t + u, t, u, q, escapes);
      hide QuotedTail;
      QuotedStraddles(t[2..], b, q, escapes);
    } else if t[0] != q {
      QuotedPastOne(t + u, t, u, q, escapes);
      hide QuotedTail;
      QuotedStraddles(t[1..], b, q, escapes);
    } else {
      assert (t + u)[0] == t[0] && (t + u)[1] == t[1];
    }
  }

  lemma FirstStraddles(t: string, b: string, q: char, escapes: bool)
    requires |t| <= 1 && q != '\\' && !StartsWith(b, '\'')
    ensures var r := QuotedTail(t + ("'" + b), q, escapes);
      || (r.Some? && r.value <= |t|)
      || (q == '\'' && r == Some(|t| + 1))
      || r == Plus(|t| + 1, QuotedTail(b, q, escapes))
  {
    var (u, s) := ("'" + b, t + ("'" + b));
    assert u[1..] == b && (b != [] ==> u[1] == b[0]);
    if t == [] {
      assert s == u;
    } else {
      assert s[0] == t[0] && s[1] == '\'' && s[1..] == u && s[2..] == b;
    }
  }

  lemma {:induction false} ThroughStraddles(t: string, b: string)
    ensures var r := Through(t + ("'" + b), "*/"); (r.Some? && r.value <= |t|) || r == Plus(|t| + 1, Through(b, "*/"))
    decreases |t|
  {
    var s := t + ("'" + b);
    if t == [] {
      assert s[1..] == b && s[0] == '\'' && "*/"[0] == '*';
      assert |s| >= 2 ==> s[..2][0] == '\'';
    } else {
      assert s[1..] == t[1..] + ("'" + b);
      ThroughStraddles(t[1..], b);
      if |s| >= 2 && s[..2] == "*/" {
        assert s[..2][1] == '/' == s[1];
        assert |t| >= 2;
      }
    }
  }

  // What is left to read of the element that w, the quote behind it, and then b leave the reader in.
  function Context(w: string, b: string): (r: Option<nat>)
    ensures r.Some? ==> r.value <= |b|
  {
    if w == "" then QuotedTail(b, '\'', true)
    else if w == "\"" then QuotedTail(b, '"', false)
    else if w == "`" then QuotedTail(b, '`', false)
    else Through(b, "*/")
  }

  lemma ContextIsLexed(w: string, b: string)
    requires w in Left() && !StartsWith(b, '\'')
    ensures Lex(MySQL, [], w + ("'" + b)) == Delimited(|w| + 1, Context(w, b))
  {
    var (u, s) := ("'" + b, w + ("'" + b));
    assert u[1..] == b && u[0] == '\'';
    if w == "" {
      assert s == u;
      QuoteOpens(MySQL, [], s);
    } else if w == "/*" {
      assert s[0] == '/' && s[1] == '*' && s[2..] == [] + u;
      ThroughStraddles([], b);
    } else {
      assert s[0] == w[0] && s[1..] == [] + u;
      QuotedStraddles([], b, w[0], false);
      assert QuotedTail(u, w[0], false) == Plus(1, QuotedTail(b, w[0], false));
    }
  }

  lemma QuoteStraddles(before: string, z: string, b: string)
    requires z != [] && z[0] in {'\'', '"', '`'} && !StartsWith(b, '\'')
    ensures var x := Lex(MySQL, before, z + ("'" + b));
      || (x.Token? && x.length <= |z| + 1)
      || x == Delimited(|z| + 1, Context(if z[0] == '\'' then "" else [z[0]], b))
  {
    hide QuotedTail, Through, LineLength;
    var s := z + ("'" + b);
    assert s[0] == z[0] && s[1..] == z[1..] + ("'" + b);
    QuotedStraddles(z[1..], b, z[0], z[0] == '\'');
  }

  lemma BlockStraddles(before: string, z: string, b: string)
    requires |z| > 1 && z[0] == '/' && z[1] == '*'
    ensures var x := Lex(MySQL, before, z + ("'" + b));
      (x.Token? && x.length <= |z|) || x == Delimited(|z| + 1, Context("/*", b))
  {
    hide QuotedTail, Through, LineLength;
    var s := z + ("'" + b);
    assert s[0] == '/' && s[1] == '*' && s[2..] == z[2..] + ("'" + b);
    ThroughStraddles(z[2..], b);
  }

  lemma LineStraddles(z: string, b: string)
    requires StartsWith(b, '\n')
    ensures LineLength(z + ("'" + b)) <= |z| + 1
  {
    assert (z + ("'" + b))[|z| + 1] == b[0];
  }

  // A token that begins before the literal's last quote ends with it at the latest, or leaves the reader in b as one of
  // the four contexts does.
  lemma TokenStraddles(before: string, z: string, b: string)
    requires z != [] && StartsWith(b, '\n')
    ensures var x := Lex(MySQL, before, z + ("'" + b));
      || x.Hit?
      || (x.Token? && x.length <= |z| + 1)
      || exists w :: w in Left() && x == Delimited(|z| + 1, Context(w, b))
  {
    hide QuotedTail, Through, LineLength, Context, DollarTail;
    var s := z + ("'" + b);
    assert s[0] == z[0];
    if z[0] in {'\'', '"', '`'} {
      QuoteStraddles(before, z, b);
      assert (if z[0] == '\'' then "" else [z[0]]) in Left();
    } else if OpensLineComment(MySQL, s) {
      LineStraddles(z, b);
    } else if z[0] == '/' && |z| > 1 && z[1] == '*' {
      BlockStraddles(before, z, b);
      assert "/*" in Left();
    } else {
      assert |z| == 1 ==> s[1] == '\'';
      assert |z| > 1 ==> s[1] == z[1];
    }
  }

  lemma ScanPast(before: string, w: string, b: string, r: Option<nat>)
    requires r.Some? ==> r.value <= |b|
    requires Lex(MySQL, before, w + ("'" + b)) == Delimited(|w| + 1, r)
    ensures Scan(MySQL, before, w + ("'" + b)) == if r.None? then Unclosed else Scan(MySQL, [], b[r.value..])
  {
    hide Lex;
    var s := w + ("'" + b);
    if r.Some? {
      var n := |w| + 1 + r.value;
      ScanToken(MySQL, before, s, n);
      assert s[n..] == b[r.value..];
      MySQLForgets(before + s[..n], [], b[r.value..]);
    }
  }

  // So whatever the literal contains, the placeholder in b is found.
  lemma {:induction false} CrossingFound(before: string, z: string, b: string)
    requires StartsWith(b, '\n') && FoundAnyway(b)
    ensures Scan(MySQL, before, z + ("'" + b)) == Found
    decreases |z|
  {
    hide Lex, Context, Scan;
    var s := z + ("'" + b);
    if z == [] {
      assert s == "" + ("'" + b) && "" in Left();
      MySQLForgets(before, [], s);
    } else {
      TokenStraddles(before, z, b);
      var x := Lex(MySQL, before, s);
      if x == Hit {
        HitIsFound(before, s);
      } else if x.Token? && x.length <= |z| + 1 {
        ScanToken(MySQL, before, s, x.length);
        if x.length <= |z| {
          assert s[x.length..] == z[x.length..] + ("'" + b);
          CrossingFound(before + s[..x.length], z[x.length..], b);
        } else {
          assert s[x.length..] == b;
          MySQLForgets(before + s[..x.length], [], b);
        }
      } else {
        var w :| w in Left() && x == Delimited(|z| + 1, Context(w, b));
        ScanPast(before, z, b, Context(w, b));
        ContextIsLexed(w, b);
        ScanPast([], w, b, Context(w, b));
      }
    }
  }

  lemma HitIsFound(before: string, s: string)
    requires s != [] && Lex(MySQL, before, s) == Hit
    ensures Scan(MySQL, before, s) == Found
  {
    hide Lex;
  }

  // ---- When an insertion is harmless ----

  // Whatever the literal contains, the verdict is the one of the text without it.
  ghost predicate Inert(d: Engine, a: string, b: string)
  {
    forall x :: Body(x, '\'', Escapes(d, a)) ==> Scan(d, [], a + (Literal(x) + b)) == Scan(d, [], a + b)
  }

  // The cases by the token before the insertion: one that does not run on; a quoted text, harmless unless it is an
  // escape string of PostgreSQL; and a line comment, harmless only in MySQL when the verdict is settled anyway.
  ghost predicate Harmless(d: Engine, a: string, b: string)
    requires Tiled(d, [], a + b, |a|)
  {
    if a == [] || Free(d, [], a + b, |a|) then Detaches(d, a, b) ==> Scan(d, [], b) == Scan(d, a, b)
    else
      var p := LastToken(d, [], a + b, |a|);
      if a[p] == '\'' then d.MySQL? || !Escapes(d, a[..p]) else d.MySQL? && FoundAnyway(b)
  }

  lemma WithoutLiteral(d: Engine, a: string, b: string)
    requires Tiled(d, [], a + b, |a|)
    ensures Scan(d, [], a + b) == Scan(d, a, b)
  {
    hide Tiled, Scan;
    ScanSkipsTiles(d, [], a + b, |a|);
    assert [] + (a + b)[..|a|] == a && (a + b)[|a|..] == b;
  }

  lemma InertWhenFree(d: Engine, a: string, b: string)
    requires Free(d, [], a + b, |a|)
    ensures Inert(d, a, b) <==> (Detaches(d, a, b) ==> Scan(d, [], b) == Scan(d, a, b))
  {
    hide Free, Scan, Escapes, Tiled, Literal, Detaches;
    FreeIsTiled(d, [], a + b, |a|);
    WithoutLiteral(d, a, b);
    forall x | Body(x, '\'', Escapes(d, a))
      ensures Scan(d, [], a + (Literal(x) + b)) == if Detaches(d, a, b) then Scan(d, [], b) else Scan(d, a, b)
    {
      FreeInsertion(d, a, x, b);
    }
    assert Body([], '\'', Escapes(d, a));
  }

  lemma QuoteEndsNoPrefix(a: string)
    requires a != [] && a[|a| - 1] == '\''
    ensures !Escapes(PostgreSQL, a)
  {
  }

  lemma InertBehindLiteral(d: Engine, a: string, b: string, p: nat)
    requires Tiled(d, [], a + b, |a|) && a != [] && p == LastToken(d, [], a + b, |a|) && a[p] == '\''
    requires d.MySQL? || !Escapes(d, a[..p])
    ensures Inert(d, a, b)
  {
    hide Tiled, Scan, Lex, Free, RunsOn, Body;
    WithoutLiteral(d, a, b);
    ScanFromLast(d, a, b, "'");
    LastIsQuote(d, a, b, p);
    if d.PostgreSQL? { QuoteEndsNoPrefix(a); }
    assert Escapes(d, a[..p]) == Escapes(d, a);
    hide Escapes;
    forall x | Body(x, '\'', Escapes(d, a)) ensures Scan(d, [], a + (Literal(x) + b)) == Scan(d, [], a + b) {
      ScanFromLast(d, a, b, Literal(x) + b);
      BehindSameLiteral(d, a, x, b, p);
    }
  }

  lemma LiteralOpens(x: string, b: string)
    ensures StartsWith(Literal(x) + b, '\'')
  {
  }

  // Out of a literal, the first of these is a placeholder and the second a dollar quote that is never closed.
  lemma TwoVerdicts(before: string, b: string)
    ensures Scan(PostgreSQL, before, "$1" + ("'" + b)) == Found
    ensures Scan(PostgreSQL, before, LongQuote(|"'" + b|) + ("'" + b)) == Unclosed
  {
    NumberIsFound(before, "'" + b);
    LongQuoteIsOpen(before, "'" + b);
  }

  lemma LongQuoteIsPlain(n: nat)
    ensures var w := LongQuote(n); w != [] && w[0] == '$' && '\'' !in w && '\\' !in w && '\n' !in w
  {
  }

  lemma NotInertBehindEscapeString(a: string, b: string, p: nat)
    requires Tiled(PostgreSQL, [], a + b, |a|) && a != [] && p == LastToken(PostgreSQL, [], a + b, |a|) && a[p] == '\''
    requires Escapes(PostgreSQL, a[..p])
    ensures !Inert(PostgreSQL, a, b)
  {
    hide Tiled, Scan, Lex, Free, RunsOn, Literal, LongQuote, Escapes;
    ScanFromLast(PostgreSQL, a, b, "'");
    LastIsQuote(PostgreSQL, a, b, p);
    QuoteEndsNoPrefix(a);
    TwoVerdicts("'", b);
    LongQuoteIsPlain(|"'" + b|);
    forall w | w in {"$1", LongQuote(|"'" + b|)}
      ensures Body("\\''" + w, '\'', false)
      ensures Scan(PostgreSQL, [], a + (Literal("\\''" + w) + b)) == Scan(PostgreSQL, "'", w + ("'" + b))
    {
      EscapedBody(w);
      LiteralOpens("\\''" + w, b);
      ScanFromLast(PostgreSQL, a, b, Literal("\\''" + w) + b);
      EscapeStringExposes(a, b, p, w);
    }
  }

  lemma EscapedBody(w: string)
    requires '\'' !in w && '\\' !in w
    ensures Body("\\''" + w, '\'', false)
  {
    hide Body;
    PlainBody(w, '\'', false);
    var x := "\\''" + w;
    assert x[1..][2..] == w;
    assert Body(x, '\'', false) by { BodyOfThree(x); }
  }

  lemma BodyOfThree(x: string)
    requires |x| >= 3 && x[0] == '\\' && x[1] == '\'' && x[2] == '\'' && Body(x[1..][2..], '\'', false)
    ensures Body(x, '\'', false)
  {
    assert Body(x[1..], '\'', false);
  }

  lemma InLineBody(w: string, escapes: bool)
    requires '\'' !in w && '\\' !in w
    ensures Body("\n" + w, '\'', escapes)
  {
    hide Body;
    PlainBody("\n" + w, '\'', escapes);
  }

  // A literal whose second line is w, behind a line comment.
  lemma SecondLineStandsOut(d: Engine, a: string, b: string, p: nat, w: string)
    requires Tiled(d, [], a + b, |a|) && a != [] && p == LastToken(d, [], a + b, |a|) && a[p] != '\''
    requires !Free(d, [], a + b, |a|) && '\'' !in w && '\\' !in w
    ensures Body("\n" + w, '\'', Escapes(d, a))
    ensures Scan(d, [], a + (Literal("\n" + w) + b)) == Scan(d, a + "'" + "\n", w + ("'" + b))
  {
    hide Tiled, Scan, Lex, Free, Body, Escapes, OpensLineComment, Literal;
    LiteralOpens("\n" + w, b);
    ScanFromLast(d, a, b, Literal("\n" + w) + b);
    assert (a[p..] + b)[0] == a[p];
    InLineBody(w, Escapes(d, a));
    CommentExposes(d, a, b, p, w);
  }

  lemma NotInertBehindComment(a: string, b: string, p: nat)
    requires Tiled(PostgreSQL, [], a + b, |a|) && a != [] && p == LastToken(PostgreSQL, [], a + b, |a|) && a[p] != '\''
    requires !Free(PostgreSQL, [], a + b, |a|)
    ensures !Inert(PostgreSQL, a, b)
  {
    hide Tiled, Scan, Lex, Free, Literal, LongQuote, Escapes, Body;
    TwoVerdicts(a + "'" + "\n", b);
    LongQuoteIsPlain(|"'" + b|);
    SecondLineStandsOut(PostgreSQL, a, b, p, "$1");
    SecondLineStandsOut(PostgreSQL, a, b, p, LongQuote(|"'" + b|));
  }

  // Behind a line comment that ends where b begins, the reader gets to b, or to somewhere inside the literal.
  lemma CommentReaches(a: string, x: string, b: string)
    requires StartsWith(b, '\n') && FoundAnyway(b)
    ensures var u := Literal(x) + b; forall before :: Scan(MySQL, before, u[LineLength(u)..]) == Found
  {
    hide Scan, LineLength;
    var u := Literal(x) + b;
    var m := LineLength(u);
    assert u[|x| + 2] == '\n';
    forall before ensures Scan(MySQL, before, u[m..]) == Found {
      if m == |x| + 2 {
        assert u[m..] == b;
        MySQLForgets(before, [], b);
      } else {
        var z := ("'" + x)[m..];
        assert u == "'" + x + ("'" + b);
        assert u[m..] == z + ("'" + b);
        CrossingFound(before, z, b);
      }
    }
  }

  lemma CommentStops(d: Engine, a: string, b: string, p: nat)
    requires p < |a| && Lex(d, a[..p], a[p..] + b) == Token(|a| - p) && OpensLineComment(d, a[p..] + b) && a[p] != '\''
    ensures b == [] || StartsWith(b, '\n')
  {
    var rest := a[p..] + b;
    assert rest[0] == a[p];
    CommentLexeme(d, a[..p], rest);
    assert b != [] ==> rest[|a| - p] == b[0];
  }

  lemma FoundAnywayIsInert(a: string, b: string, p: nat)
    requires Tiled(MySQL, [], a + b, |a|) && a != [] && p == LastToken(MySQL, [], a + b, |a|) && a[p] != '\''
    requires !Free(MySQL, [], a + b, |a|) && FoundAnyway(b)
    ensures Inert(MySQL, a, b)
  {
    hide Tiled, Scan, Lex, Free, Literal, Escapes, Body, OpensLineComment, LineLength;
    ScanFromLast(MySQL, a, b, "'");
    assert (a[p..] + b)[0] == a[p];
    assert b != [] by { NothingIsClean(); }
    CommentStops(MySQL, a, b, p);
    WithoutLiteral(MySQL, a, b);
    MySQLForgets(a, [], b);
    forall x | Body(x, '\'', Escapes(MySQL, a)) ensures Scan(MySQL, [], a + (Literal(x) + b)) == Scan(MySQL, [], a + b) {
      LiteralOpens(x, b);
      ScanFromLast(MySQL, a, b, Literal(x) + b);
      CommentRunsOn(MySQL, a, b, p, Literal(x) + b);
      CommentReaches(a, x, b);
    }
  }

  lemma NothingIsClean()
    ensures Scan(MySQL, [], []) == Clean
  {
  }

  lemma QuestionIsFound(before: string, u: string)
    ensures Scan(MySQL, before, "?" + u) == Found
  {
    var s := "?" + u;
    assert s[0] == '?' && Lex(MySQL, before, s) == Hit;
  }

  lemma InertIsFoundAnyway(a: string, b: string, p: nat)
    requires Tiled(MySQL, [], a + b, |a|) && a != [] && p == LastToken(MySQL, [], a + b, |a|) && a[p] != '\''
    requires !Free(MySQL, [], a + b, |a|) && Inert(MySQL, a, b)
    ensures FoundAnyway(b)
  {
    hide Tiled, Scan, Lex, Free, Literal, Escapes, Body;
    SecondLineStandsOut(MySQL, a, b, p, "?");
    QuestionIsFound(a + "'" + "\n", "'" + b);
    WithoutLiteral(MySQL, a, b);
    MySQLForgets(a, [], b);
    forall w | w in Left() ensures Scan(MySQL, [], w + ("'" + b)) == Found {
      SecondLineStandsOut(MySQL, a, b, p, w);
      MySQLForgets(a + "'" + "\n", [], w + ("'" + b));
    }
  }

  // Between any two tokens: every properly quoted literal leaves the verdict as it is if and only if the place is harmless.
  lemma InsertionIsHarmless(d: Engine, a: string, b: string)
    requires Tiled(d, [], a + b, |a|)
    ensures Inert(d, a, b) <==> Harmless(d, a, b)
  {
    hide Tiled, Scan, Lex, Free, Inert, FoundAnyway, Detaches, Escapes;
    if a == [] || Free(d, [], a + b, |a|) {
      NothingTiled(d, a + b);
      InertWhenFree(d, a, b);
    } else {
      var p := LastToken(d, [], a + b, |a|);
      if a[p] == '\'' && (d.MySQL? || !Escapes(d, a[..p])) {
        InertBehindLiteral(d, a, b, p);
      } else if a[p] == '\'' {
        NotInertBehindEscapeString(a, b, p);
      } else if d.PostgreSQL? {
        NotInertBehindComment(a, b, p);
      } else if FoundAnyway(b) {
        FoundAnywayIsInert(a, b, p);
      } else if Inert(d, a, b) {
        InertIsFoundAnyway(a, b, p);
      }
    }
  }
}
