/** apps/api/internal/sqlpolicy/placeholder.go: the lexical elements that the scanners skip. Characters stand for bytes. */
module Lexemes {
  import opened Prelude

  function Plus(n: nat, r: Option<nat>): Option<nat> { if r.Some? then Some(n + r.value) else None }

  // ---- Quoted text ----

  // How much of t, the text after an opening q, belongs to the quoted text, its closing q included.
  function QuotedTail(t: string, q: char, escapes: bool): (r: Option<nat>)
    ensures r.Some? ==> 0 < r.value <= |t|
  {
    if t == [] then None
    else if t[0] == '\\' && escapes && |t| > 1 then Plus(2, QuotedTail(t[2..], q, escapes))
    else if t[0] == q then (if |t| > 1 && t[1] == q then Plus(2, QuotedTail(t[2..], q, escapes)) else Some(1))
    else Plus(1, QuotedTail(t[1..], q, escapes))
  }

  // What may stand between quotes: doubled quotes, escaped characters where there are escapes, and anything else but a
  // quote or an escape.
  predicate Body(x: string, q: char, escapes: bool)
  {
    if x == [] then true
    else if x[0] == '\\' && escapes then |x| > 1 && Body(x[2..], q, escapes)
    else if x[0] == q then |x| > 1 && x[1] == q && Body(x[2..], q, escapes)
    else Body(x[1..], q, escapes)
  }

  predicate StartsWith(t: string, q: char) { t != [] && t[0] == q }

  // A text that ends with a quote not doubled is skipped to just that quote, and to no other.
  lemma {:induction false} QuotedTailIsBody(t: string, q: char, escapes: bool, n: nat)
    requires q != '\\'
    ensures QuotedTail(t, q, escapes) == Some(n)
      <==> 0 < n <= |t| && t[n - 1] == q && Body(t[..n - 1], q, escapes) && !StartsWith(t[n..], q)
    decreases |t|
  {
    if t != [] {
      if (t[0] == '\\' && escapes && |t| > 1) || (t[0] == q && |t| > 1 && t[1] == q) {
        if 2 <= n <= |t| {
          QuotedTailIsBody(t[2..], q, escapes, n - 2);
          if n > 2 {
            assert t[..n - 1][2..] == t[2..][..n - 3];
            assert t[2..][n - 2..] == t[n..];
          }
        }
      } else if t[0] != q {
        if 1 <= n <= |t| {
          QuotedTailIsBody(t[1..], q, escapes, n - 1);
          if n > 1 {
            assert t[..n - 1][1..] == t[1..][..n - 2];
            assert t[1..][n - 1..] == t[n..];
          }
        }
      }
    }
  }

  // ---- Comments and dollar quotes ----

  // To the end of the line, exclusively.
  function LineLength(t: string): (n: nat)
    ensures n <= |t| && (n < |t| ==> t[n] == '\n') && forall i :: 0 <= i < n ==> t[i] != '\n'
  {
    if t == [] || t[0] == '\n' then 0 else 1 + LineLength(t[1..])
  }

  lemma {:induction false} LineEnds(line: string, rest: string)
    requires '\n' !in line && (rest == [] || rest[0] == '\n')
    ensures LineLength(line + rest) == |line|
    decreases |line|
  {
    if line == [] {
      assert line + rest == rest;
    } else {
      assert (line + rest)[1..] == line[1..] + rest && (line + rest)[0] == line[0] && forall c :: c in line[1..] ==> c in line;
      LineEnds(line[1..], rest);
    }
  }

  // Whether mark stands in t at i.
  predicate MarkAt(t: string, mark: string, i: nat) { i + |mark| <= |t| && t[i..i + |mark|] == mark }

  // To the end of the first mark, inclusively.
  function Through(t: string, mark: string): (r: Option<nat>)
    ensures r.Some? ==> |mark| <= r.value <= |t|
  {
    if |t| < |mark| then None
    else if t[..|mark|] == mark then Some(|mark|)
    else Plus(1, Through(t[1..], mark))
  }

  lemma SliceOfTail(t: string, i: nat, j: nat)
    requires i <= j < |t|
    ensures t[1..][i..j] == t[i + 1..j + 1]
  {
  }

  lemma SliceOfSlice(t: string, a: nat, b: nat, i: nat, j: nat)
    requires i <= j && a + j <= b <= |t|
    ensures t[a..b][i..j] == t[a + i..a + j]
  {
    var w := t[a..b];
    assert |w[i..j]| == j - i;
    forall k | 0 <= k < j - i ensures w[i..j][k] == t[a + i..a + j][k] {
      assert w[i..j][k] == w[i + k] == t[a + (i + k)];
    }
  }

  // n is where the first mark in t ends.
  predicate FirstEndsAt(t: string, mark: string, n: nat)
  {
    |mark| <= n <= |t| && MarkAt(t, mark, n - |mark|) && forall i :: 0 <= i < n - |mark| ==> !MarkAt(t, mark, i)
  }

  lemma FirstLater(t: string, mark: string, n: nat)
    requires mark != [] && t != [] && !MarkAt(t, mark, 0) && n > 0
    ensures FirstEndsAt(t, mark, n) == FirstEndsAt(t[1..], mark, n - 1)
  {
    forall i: nat ensures MarkAt(t, mark, i + 1) == MarkAt(t[1..], mark, i) {
      if i + 1 + |mark| <= |t| {
        SliceOfTail(t, i, i + |mark|);
      }
    }
    if FirstEndsAt(t, mark, n) {
      assert MarkAt(t, mark, n - |mark|) && n != |mark|;
      assert MarkAt(t, mark, (n - 1 - |mark|) + 1);
      forall i | 0 <= i < n - 1 - |mark| ensures !MarkAt(t[1..], mark, i) {
        assert !MarkAt(t, mark, i + 1);
      }
    }
    if FirstEndsAt(t[1..], mark, n - 1) {
      assert MarkAt(t, mark, (n - 1 - |mark|) + 1);
      forall i | 0 <= i < n - |mark| ensures !MarkAt(t, mark, i) {
        if i > 0 {
          assert !MarkAt(t[1..], mark, i - 1);
          assert MarkAt(t, mark, (i - 1) + 1) == MarkAt(t[1..], mark, i - 1);
        }
      }
    }
  }

  lemma {:induction false} ThroughIsFirst(t: string, mark: string, n: nat)
    requires mark != []
    ensures Through(t, mark) == Some(n) <==> FirstEndsAt(t, mark, n)
    decreases |t|
  {
    if |mark| <= |t| {
      assert MarkAt(t, mark, 0) <==> t[..|mark|] == mark;
      if !MarkAt(t, mark, 0) && n > 0 {
        ThroughIsFirst(t[1..], mark, n - 1);
        FirstLater(t, mark, n);
        hide FirstEndsAt;
      }
    }
  }

  // t begins after the first dollar: the tag up to the next one, then everything up to the tag between dollars again.
  function DollarTail(t: string): (r: Option<nat>)
    ensures r.Some? ==> 0 < r.value <= |t|
  {
    var tag := Through(t, "$");
    if tag.None? then None
    else
      var n := tag.value;
      Plus(n, Through(t[n..], "$" + t[..n - 1] + "$"))
  }

  // ---- The loops ----

  lemma QuotedStep(sql: string, i: nat, q: char, escapes: bool)
    requires i < |sql|
    ensures QuotedTail(sql[i..], q, escapes) ==
      if sql[i] == '\\' && escapes && i + 1 < |sql| then Plus(2, QuotedTail(sql[i + 2..], q, escapes))
      else if sql[i] == q then
        (if i + 1 < |sql| && sql[i + 1] == q then Plus(2, QuotedTail(sql[i + 2..], q, escapes)) else Some(1))
      else Plus(1, QuotedTail(sql[i + 1..], q, escapes))
  {
    assert sql[i..][1..] == sql[i + 1..];
    assert i + 1 < |sql| ==> sql[i..][2..] == sql[i + 2..];
  }

  method SkipQuoted(sql: string, start: nat, q: char, escapes: bool) returns (next: nat, closed: bool)
    requires start < |sql|
    ensures start < next <= |sql|
    ensures (if closed then Some(next - start - 1) else None) == QuotedTail(sql[start + 1..], q, escapes)
  {
    hide QuotedTail;
    var i := start + 1;
    while i < |sql|
      invariant start < i <= |sql|
      invariant QuotedTail(sql[start + 1..], q, escapes) == Plus(i - start - 1, QuotedTail(sql[i..], q, escapes))
    {
      QuotedStep(sql, i, q, escapes);
      if sql[i] == '\\' && escapes && i + 1 < |sql| {
        i := i + 2;
        continue;
      }
      if sql[i] == q {
        if i + 1 < |sql| && sql[i + 1] == q {
          i := i + 2;
          continue;
        }
        return i + 1, true;
      }
      i := i + 1;
    }
    assert QuotedTail([], q, escapes) == None by { QuotedEmpty(q, escapes); }
    return i, false;
  }

  lemma QuotedEmpty(q: char, escapes: bool)
    ensures QuotedTail([], q, escapes) == None
  {
  }

  method SkipLineComment(sql: string, start: nat) returns (next: nat)
    requires start <= |sql|
    ensures next == start + LineLength(sql[start..])
  {
    next := start;
    while next < |sql| && sql[next] != '\n'
      invariant start <= next <= |sql|
      invariant LineLength(sql[start..]) == next - start + LineLength(sql[next..])
    {
      assert sql[next..][1..] == sql[next + 1..];
      next := next + 1;
    }
  }

  lemma ThroughStep(sql: string, i: nat, mark: string)
    requires i <= |sql| && mark != []
    ensures Through(sql[i..], mark) ==
      if |sql| - i < |mark| then None
      else if MarkAt(sql, mark, i) then Some(|mark|)
      else Plus(1, Through(sql[i + 1..], mark))
  {
    if i + |mark| <= |sql| {
      assert sql[i..][..|mark|] == sql[i..i + |mark|];
      assert sql[i..][1..] == sql[i + 1..];
    }
  }

  method SkipBlockComment(sql: string, start: nat) returns (next: nat, closed: bool)
    requires start + 2 <= |sql|
    ensures start < next <= |sql|
    ensures (if closed then Some(next - start - 2) else None) == Through(sql[start + 2..], "*/")
  {
    hide Through;
    var i := start + 2;
    while i + 1 < |sql|
      invariant start + 2 <= i <= |sql|
      invariant Through(sql[start + 2..], "*/") == Plus(i - start - 2, Through(sql[i..], "*/"))
    {
      ThroughStep(sql, i, "*/");
      assert sql[i..i + 2] == [sql[i], sql[i + 1]];
      if sql[i] == '*' && sql[i + 1] == '/' {
        return i + 2, true;
      }
      i := i + 1;
    }
    ThroughStep(sql, i, "*/");
    return |sql|, false;
  }

  // A closing $tag$ read piece by piece.
  lemma MarkParts(sql: string, k: nat, tag: string)
    requires k < |sql|
    ensures MarkAt(sql, "$" + tag + "$", k)
      <==> sql[k] == '$' && k + 1 + |tag| < |sql| && sql[k + 1..k + 1 + |tag|] == tag && sql[k + 1 + |tag|] == '$'
  {
    var m := "$" + tag + "$";
    assert m[0] == '$' && m[1..|tag| + 1] == tag && m[|tag| + 1] == '$' && |m| == |tag| + 2;
    if k + |m| <= |sql| {
      var w := sql[k..k + |m|];
      assert w[0] == sql[k] && w[|tag| + 1] == sql[k + 1 + |tag|];
      SliceOfSlice(sql, k, k + |m|, 1, |tag| + 1);
      assert w == [w[0]] + w[1..|tag| + 1] + [w[|tag| + 1]];
    }
  }

  method FindDollar(sql: string, from: nat) returns (k: nat)
    requires from <= |sql|
    ensures from <= k <= |sql| && (k < |sql| ==> sql[k] == '$') && forall i :: from <= i < k ==> sql[i] != '$'
  {
    k := from;
    while k < |sql| && sql[k] != '$'
      invariant from <= k <= |sql| && forall i :: from <= i < k ==> sql[i] != '$'
    {
      k := k + 1;
    }
  }

  // No mark begins where there is no dollar.
  lemma {:induction false} NoDollarNoMark(sql: string, from: nat, k: nat, tag: string)
    requires from <= k <= |sql| && forall i :: from <= i < k ==> sql[i] != '$'
    ensures Through(sql[from..], "$" + tag + "$") == Plus(k - from, Through(sql[k..], "$" + tag + "$"))
    decreases k - from
  {
    hide Through;
    if from < k {
      MarkParts(sql, from, tag);
      ThroughStep(sql, from, "$" + tag + "$");
      NoDollarNoMark(sql, from + 1, k, tag);
      if |sql| - from < |tag| + 2 {
        ThroughStep(sql, k, "$" + tag + "$");
      }
    }
  }

  method SkipToMark(sql: string, from: nat, tag: string) returns (next: nat, closed: bool)
    requires from <= |sql|
    ensures from <= next <= |sql|
    ensures (if closed then Some(next - from) else None) == Through(sql[from..], "$" + tag + "$")
  {
    hide Through;
    ghost var mark := "$" + tag + "$";
    var search := from;
    while true
      invariant from <= search <= |sql|
      invariant Through(sql[from..], mark) == Plus(search - from, Through(sql[search..], mark))
      decreases |sql| - search
    {
      var k := FindDollar(sql, search);
      NoDollarNoMark(sql, search, k, tag);
      ThroughStep(sql, k, mark);
      if k >= |sql| {
        return |sql|, false;
      }
      MarkParts(sql, k, tag);
      if k + 1 + |tag| < |sql| && sql[k + 1..k + 1 + |tag|] == tag && sql[k + 1 + |tag|] == '$' {
        return k + |tag| + 2, true;
      }
      if |sql| - k < |mark| {
        ThroughStep(sql, k + 1, mark);
      }
      search := k + 1;
    }
  }

  method SkipDollarQuoted(sql: string, start: nat) returns (next: nat, closed: bool)
    requires start < |sql|
    ensures start < next <= |sql|
    ensures (if closed then Some(next - start - 1) else None) == DollarTail(sql[start + 1..])
  {
    hide Through;
    var j := FindDollar(sql, start + 1);
    TagEnds(sql, start + 1, j);
    if j >= |sql| {
      return |sql|, false;
    }
    var tag := sql[start + 1..j];
    assert sql[start + 1..][..j - start - 1] == tag && sql[start + 1..][j - start..] == sql[j + 1..];
    next, closed := SkipToMark(sql, j + 1, tag);
    if !closed {
      next := |sql|;
    }
  }

  // The tag ends at the first dollar.
  lemma {:induction false} TagEnds(sql: string, from: nat, j: nat)
    requires from <= j <= |sql| && (j < |sql| ==> sql[j] == '$') && forall i :: from <= i < j ==> sql[i] != '$'
    ensures Through(sql[from..], "$") == if j < |sql| then Some(j - from + 1) else None
    decreases j - from
  {
    hide Through;
    ThroughStep(sql, from, "$");
    if from < |sql| {
      assert sql[from..from + 1] == [sql[from]];
      if from < j {
        TagEnds(sql, from + 1, j);
      }
    }
  }
}
