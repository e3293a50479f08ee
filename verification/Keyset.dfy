/** apps/api/internal/adapter/keyset.go: the continuation predicate and the ORDER BY clause of a page query. */
module Keyset {
  import opened Prelude
  import opened Sql

  datatype SortSpec = SortSpec(column: string, asc: bool, nullsLast: bool) {
    function NullRank(): int { if nullsLast then 1 else 0 }
    function NonNullRank(): int { if nullsLast then 0 else 1 }
  }

  // ---- What "after the last row" means, independently of any SQL ----

  function CompareValues(s: SortSpec, a: Value, b: Value): int
  {
    if a.Null? && b.Null? then 0
    else if a.Null? then s.NullRank() - s.NonNullRank()
    else if b.Null? then s.NonNullRank() - s.NullRank()
    else if s.asc then Sign(a.rank, b.rank) else Sign(b.rank, a.rank)
  }

  function CompareFrom(specs: seq<SortSpec>, i: nat, cols: Header, a: Row, b: Row): int
    decreases |specs| - i
  {
    if i >= |specs| then 0
    else
      var c := CompareValues(specs[i], Field(cols, a, specs[i].column), Field(cols, b, specs[i].column));
      if c != 0 then c else CompareFrom(specs, i + 1, cols, a, b)
  }

  function CompareRows(specs: seq<SortSpec>, cols: Header, a: Row, b: Row): int
  {
    CompareFrom(specs, 0, cols, a, b)
  }

  // The stored cursor of a page: for each sort column of its last row, the null flag and the value.
  ghost predicate CursorOf(vals: seq<Arg>, specs: seq<SortSpec>, cols: Header, last: Row)
  {
    && |vals| == 2 * |specs|
    && forall i :: 0 <= i < |specs| ==>
         vals[2 * i] == Flag(Field(cols, last, specs[i].column).Null?)
         && vals[2 * i + 1] == Cell(Field(cols, last, specs[i].column))
  }

  // ---- The builder ----

  function PlaceholderFor(engine: Engine, n: nat): Placeholder
  {
    if engine.MySQL? then Question else Dollar(n)
  }

  function Rank(s: SortSpec): Term { CaseNull(s.column, s.NullRank(), s.NonNullRank()) }

  function LastRank(engine: Engine, s: SortSpec, n: nat): Term
  {
    CaseFlag(PlaceholderFor(engine, n), s.NullRank(), s.NonNullRank())
  }

  // (rank > last rank) OR (rank = last rank AND rank = non-null rank AND col > last value)
  function Past(engine: Engine, s: SortSpec, n: nat): Cond
  {
    Or(Compare(Gt, Rank(s), LastRank(engine, s, n)),
       And(And(Compare(Eq, Rank(s), LastRank(engine, s, n + 1)), Compare(Eq, Rank(s), Number(s.NonNullRank()))),
           Compare(if s.asc then Gt else Lt, Column(s.column), Bound(PlaceholderFor(engine, n + 2)))))
  }

  // rank = last rank AND (rank = null rank OR col = last value)
  function Tied(engine: Engine, s: SortSpec, n: nat): Cond
  {
    And(Compare(Eq, Rank(s), LastRank(engine, s, n)),
        Or(Compare(Eq, Rank(s), Number(s.NullRank())),
           Compare(Eq, Column(s.column), Bound(PlaceholderFor(engine, n + 1)))))
  }

  // The condition emitted for sort columns i, i+1, .. when the next free argument number is n.
  function After(engine: Engine, specs: seq<SortSpec>, i: nat, n: nat): Cond
    decreases |specs| - i
  {
    if i >= |specs| then Never
    else if i + 1 < |specs| then
      Or(Past(engine, specs[i], n), And(Tied(engine, specs[i], n + 3), After(engine, specs, i + 1, n + 5)))
    else Past(engine, specs[i], n)
  }

  // n sort columns take five arguments each, the last one three.
  function Consumed(n: int): nat { if n <= 0 then 0 else 5 * n - 2 }

  // The arguments consumed by After, in order.
  function AfterArgs(vals: seq<Arg>, count: nat, i: nat): seq<Arg>
    requires |vals| == 2 * count
    decreases count - i
  {
    if i >= count then []
    else
      var (isNull, v) := (vals[2 * i], vals[2 * i + 1]);
      if i + 1 < count then [isNull, isNull, v, isNull, v] + AfterArgs(vals, count, i + 1)
      else [isNull, isNull, v]
  }

  lemma {:induction false} AfterArgsCount(vals: seq<Arg>, count: nat, i: nat)
    requires |vals| == 2 * count
    ensures |AfterArgs(vals, count, i)| == Consumed(count - i)
    decreases count - i
  {
    if i + 1 < count {
      hide AfterArgs;
      AfterArgsStep([], vals, count, i);
      AfterArgsCount(vals, count, i + 1);
    }
  }

  lemma AfterArgsStep(before: seq<Arg>, vals: seq<Arg>, count: nat, i: nat)
    requires |vals| == 2 * count && i + 1 < count
    ensures var (f, v, more) := (vals[2 * i], vals[2 * i + 1], AfterArgs(vals, count, i + 1));
      before + [f, f, v] + [f, v] + more == before + AfterArgs(vals, count, i)
      && |AfterArgs(vals, count, i)| == 5 + |more|
  {
    var (f, v, more) := (vals[2 * i], vals[2 * i + 1], AfterArgs(vals, count, i + 1));
    assert before + [f, f, v] + [f, v] + more == before + ([f, f, v, f, v] + more);
  }

  class KsBuilder {
    const engine: Engine
    const specs: seq<SortSpec>
    const lastVals: seq<Arg>
    var pgN: nat
    var args: seq<Arg>

    constructor (engine: Engine, specs: seq<SortSpec>, lastVals: seq<Arg>, pgN: nat)
      ensures this.engine == engine && this.specs == specs && this.lastVals == lastVals
      ensures this.pgN == pgN && args == []
    {
      this.engine, this.specs, this.lastVals, this.pgN, this.args := engine, specs, lastVals, pgN, [];
    }

    ghost function NextNumber(used: nat): nat
      reads this`pgN
    {
      if engine.MySQL? then pgN else pgN + used
    }

    method NullPlaceholder(i: nat) returns (ph: Placeholder)
      requires 2 * i < |lastVals|
      modifies this
      ensures ph == PlaceholderFor(engine, old(pgN))
      ensures args == old(args) + [lastVals[2 * i]] && pgN == old(NextNumber(1))
    {
      args := args + [lastVals[2 * i]];
      ph := PlaceholderFor(engine, pgN);
      if engine.PostgreSQL? { pgN := pgN + 1; }
    }

    method ValuePlaceholder(i: nat) returns (ph: Placeholder)
      requires 2 * i + 1 < |lastVals|
      modifies this
      ensures ph == PlaceholderFor(engine, old(pgN))
      ensures args == old(args) + [lastVals[2 * i + 1]] && pgN == old(NextNumber(1))
    {
      args := args + [lastVals[2 * i + 1]];
      ph := PlaceholderFor(engine, pgN);
      if engine.PostgreSQL? { pgN := pgN + 1; }
    }

    method BuildPast(i: nat) returns (c: Cond)
      requires i < |specs| && |lastVals| == 2 * |specs|
      modifies this
      ensures c == Past(engine, specs[i], old(pgN))
      ensures args == old(args) + [lastVals[2 * i], lastVals[2 * i], lastVals[2 * i + 1]] && pgN == old(NextNumber(3))
    {
      var s := specs[i];
      var rank := CaseNull(s.column, s.NullRank(), s.NonNullRank());
      var p0 := NullPlaceholder(i);
      var p1 := NullPlaceholder(i);
      var p2 := ValuePlaceholder(i);
      c := Or(Compare(Gt, rank, CaseFlag(p0, s.NullRank(), s.NonNullRank())),
              And(And(Compare(Eq, rank, CaseFlag(p1, s.NullRank(), s.NonNullRank())),
                      Compare(Eq, rank, Number(s.NonNullRank()))),
                  Compare(if s.asc then Gt else Lt, Column(s.column), Bound(p2))));
    }

    method BuildTied(i: nat) returns (c: Cond)
      requires i < |specs| && |lastVals| == 2 * |specs|
      modifies this
      ensures c == Tied(engine, specs[i], old(pgN))
      ensures args == old(args) + [lastVals[2 * i], lastVals[2 * i + 1]] && pgN == old(NextNumber(2))
    {
      var s := specs[i];
      var rank := CaseNull(s.column, s.NullRank(), s.NonNullRank());
      var p0 := NullPlaceholder(i);
      var p1 := ValuePlaceholder(i);
      c := And(Compare(Eq, rank, CaseFlag(p0, s.NullRank(), s.NonNullRank())),
               Or(Compare(Eq, rank, Number(s.NullRank())), Compare(Eq, Column(s.column), Bound(p1))));
    }

    method BuildAfter(i: nat) returns (c: Cond)
      requires |lastVals| == 2 * |specs|
      modifies this
      ensures c == After(engine, specs, i, old(pgN))
      ensures args == old(args) + AfterArgs(lastVals, |specs|, i)
      ensures pgN == old(NextNumber(|AfterArgs(lastVals, |specs|, i)|))
      decreases |specs| - i
    {
      if i >= |specs| {
        return Never;
      }
      ghost var (n, before) := (pgN, args);
      c := BuildPast(i);
      if i + 1 < |specs| {
        TiedUniform(engine, specs[i], n + 3, pgN);
        var tied := BuildTied(i);
        AfterUniform(engine, specs, i + 1, n + 5, pgN);
        var rest := BuildAfter(i + 1);
        c := Or(c, And(tied, rest));
        AfterArgsStep(before, lastVals, |specs|, i);
      }
    }
  }

  // MySQL text does not depend on the argument counter.
  lemma TiedUniform(engine: Engine, s: SortSpec, n: nat, m: nat)
    requires engine.MySQL? || n == m
    ensures Tied(engine, s, n) == Tied(engine, s, m)
  {
  }

  lemma {:induction false} AfterUniform(engine: Engine, specs: seq<SortSpec>, i: nat, n: nat, m: nat)
    requires engine.MySQL? || n == m
    ensures After(engine, specs, i, n) == After(engine, specs, i, m)
    decreases |specs| - i
  {
    if i + 1 < |specs| { AfterUniform(engine, specs, i + 1, n + 5, m + 5); }
  }

  // ---- The continuation predicate is exact ----

  lemma PastIsExact(s: SortSpec, n: nat, cols: Header, row: Row, v: Value, args: seq<Arg>)
    requires 1 <= n && n + 2 <= |args|
    requires args[n - 1] == args[n] == Flag(v.Null?) && args[n + 1] == Cell(v)
    ensures EvalCond(Past(PostgreSQL, s, n), cols, row, args)
         == ToTruth(CompareValues(s, Field(cols, row, s.column), v) > 0)
  {
    var beyond := Compare(Gt, Rank(s), LastRank(PostgreSQL, s, n));
    var same := Compare(Eq, Rank(s), LastRank(PostgreSQL, s, n + 1));
    var nonNull := Compare(Eq, Rank(s), Number(s.NonNullRank()));
    var f := Field(cols, row, s.column);
    assert EvalCond(beyond, cols, row, args) == ToTruth(if s.nullsLast then f.Null? && !v.Null? else !f.Null? && v.Null?);
    var value := Compare(if s.asc then Gt else Lt, Column(s.column), Bound(PlaceholderFor(PostgreSQL, n + 2)));
    assert EvalCond(And(same, nonNull), cols, row, args) == ToTruth(!f.Null? && !v.Null?);
    assert !f.Null? && !v.Null? ==> EvalCond(value, cols, row, args) == ToTruth(CompareValues(s, f, v) > 0);
    assert EvalCond(And(And(same, nonNull), value), cols, row, args)
      == ToTruth(!f.Null? && !v.Null? && CompareValues(s, f, v) > 0);
  }

  lemma TiedIsExact(s: SortSpec, n: nat, cols: Header, row: Row, v: Value, args: seq<Arg>)
    requires 1 <= n && n + 1 <= |args|
    requires args[n - 1] == Flag(v.Null?) && args[n] == Cell(v)
    ensures EvalCond(Tied(PostgreSQL, s, n), cols, row, args)
         == ToTruth(CompareValues(s, Field(cols, row, s.column), v) == 0)
  {
    var f := Field(cols, row, s.column);
    var same := Compare(Eq, Rank(s), LastRank(PostgreSQL, s, n));
    assert EvalCond(same, cols, row, args) == ToTruth(f.Null? == v.Null?);
    var isNull := Compare(Eq, Rank(s), Number(s.NullRank()));
    var value := Compare(Eq, Column(s.column), Bound(PlaceholderFor(PostgreSQL, n + 1)));
    assert EvalCond(isNull, cols, row, args) == ToTruth(f.Null?);
    assert !f.Null? && !v.Null? ==> EvalCond(value, cols, row, args) == ToTruth(f == v);
    assert f.Null? == v.Null? ==> EvalCond(Or(isNull, value), cols, row, args) == ToTruth(f == v);
  }

  // The arguments of column i start at number n of args.
  predicate BoundAt(args: seq<Arg>, n: nat, used: seq<Arg>)
  {
    n >= 1 && n - 1 + |used| <= |args| && args[n - 1..n - 1 + |used|] == used
  }

  lemma BoundAtStep(vals: seq<Arg>, count: nat, i: nat, n: nat, args: seq<Arg>)
    requires |vals| == 2 * count && i < count
    requires BoundAt(args, n, AfterArgs(vals, count, i))
    ensures n + 2 <= |args| && args[n - 1] == args[n] == vals[2 * i] && args[n + 1] == vals[2 * i + 1]
    ensures i + 1 < count ==> n + 4 <= |args| && args[n + 2] == vals[2 * i] && args[n + 3] == vals[2 * i + 1]
    ensures i + 1 < count ==> BoundAt(args, n + 5, AfterArgs(vals, count, i + 1))
  {
    var used := AfterArgs(vals, count, i);
    AfterArgsParts(vals, count, i);
    hide AfterArgs;
    var window := args[n - 1..n - 1 + |used|];
    assert window[0] == args[n - 1] && window[1] == args[n] && window[2] == args[n + 1];
    if i + 1 < count {
      assert window[3] == args[n + 2] && window[4] == args[n + 3];
      assert args[n + 4..n - 1 + |used|] == window[5..] == AfterArgs(vals, count, i + 1);
    }
  }

  lemma AfterArgsParts(vals: seq<Arg>, count: nat, i: nat)
    requires |vals| == 2 * count && i < count
    ensures var used := AfterArgs(vals, count, i);
      && |used| >= 3 && used[0] == used[1] == vals[2 * i] && used[2] == vals[2 * i + 1]
      && (i + 1 < count ==> |used| >= 5 && used[3] == vals[2 * i] && used[4] == vals[2 * i + 1]
                            && used[5..] == AfterArgs(vals, count, i + 1))
  {
  }

  // On every row the emitted predicate is TRUE exactly when the row is strictly after the last one,
  // and FALSE (never NULL) otherwise.
  lemma {:induction false} AfterIsExact(specs: seq<SortSpec>, i: nat, n: nat, 
      cols: Header, row: Row, last: Row, vals: seq<Arg>, args: seq<Arg>)
    requires CursorOf(vals, specs, cols, last) && BoundAt(args, n, AfterArgs(vals, |specs|, i))
    ensures EvalCond(After(PostgreSQL, specs, i, n), cols, row, args) == ToTruth(CompareFrom(specs, i, cols, row, last) > 0)
    decreases |specs| - i
  {
    if i < |specs| {
      var v := Field(cols, last, specs[i].column);
      BoundAtStep(vals, |specs|, i, n, args);
      PastIsExact(specs[i], n, cols, row, v, args);
      if i + 1 < |specs| {
        TiedIsExact(specs[i], n + 3, cols, row, v, args);
        AfterIsExact(specs, i + 1, n + 5, cols, row, last, vals, args);
      }
    }
  }

  lemma NumberingPast(s: SortSpec, m: nat, n: nat)
    ensures NumberCond(Past(MySQL, s, m), n) == (Past(PostgreSQL, s, n), n + 3)
    ensures Placeholders(Past(PostgreSQL, s, n)) == 3
  {
    var beyond := Compare(Gt, Rank(s), LastRank(MySQL, s, m));
    assert NumberCond(beyond, n) == (Compare(Gt, Rank(s), LastRank(PostgreSQL, s, n)), n + 1);
    var same := Compare(Eq, Rank(s), LastRank(MySQL, s, m + 1));
    assert NumberCond(same, n + 1) == (Compare(Eq, Rank(s), LastRank(PostgreSQL, s, n + 1)), n + 2);
    var nonNull := Compare(Eq, Rank(s), Number(s.NonNullRank()));
    var samePg := Compare(Eq, Rank(s), LastRank(PostgreSQL, s, n + 1));
    assert NumberCond(And(same, nonNull), n + 1) == (And(samePg, nonNull), n + 2);
    var op := if s.asc then Gt else Lt;
    var value := Compare(op, Column(s.column), Bound(PlaceholderFor(MySQL, m + 2)));
    var valuePg := Compare(op, Column(s.column), Bound(Dollar(n + 2)));
    assert NumberCond(value, n + 2) == (valuePg, n + 3);
    assert NumberCond(And(And(same, nonNull), value), n + 1) == (And(And(samePg, nonNull), valuePg), n + 3);
    assert Placeholders(And(samePg, nonNull)) == 1;
    assert Placeholders(And(And(samePg, nonNull), valuePg)) == 2;
  }

  lemma NumberingTied(s: SortSpec, m: nat, n: nat)
    ensures NumberCond(Tied(MySQL, s, m), n) == (Tied(PostgreSQL, s, n), n + 2)
    ensures Placeholders(Tied(PostgreSQL, s, n)) == 2
  {
    var same := Compare(Eq, Rank(s), LastRank(MySQL, s, m));
    assert NumberCond(same, n) == (Compare(Eq, Rank(s), LastRank(PostgreSQL, s, n)), n + 1);
    var value := Compare(Eq, Column(s.column), Bound(PlaceholderFor(MySQL, m + 1)));
    var isNull := Compare(Eq, Rank(s), Number(s.NullRank()));
    assert NumberCond(Or(isNull, value), n + 1) ==
      (Or(isNull, Compare(Eq, Column(s.column), Bound(Dollar(n + 1)))), n + 2);
    assert Placeholders(Or(isNull, Compare(Eq, Column(s.column), Bound(Dollar(n + 1))))) == 1;
  }

  // In MySQL the k-th `?` of the text takes the same argument that PostgreSQL names explicitly,
  // and n sort columns take 5n - 2 of them.
  lemma {:induction false} NumberingAfter(specs: seq<SortSpec>, i: nat, m: nat, n: nat)
    ensures Placeholders(After(PostgreSQL, specs, i, n)) == Consumed(|specs| - i)
    ensures NumberCond(After(MySQL, specs, i, m), n) ==
      (After(PostgreSQL, specs, i, n), n + Placeholders(After(PostgreSQL, specs, i, n)))
    decreases |specs| - i
  {
    if i < |specs| {
      NumberingPast(specs[i], m, n);
      if i + 1 < |specs| {
        NumberingTied(specs[i], m + 3, n + 3);
        NumberingAfter(specs, i + 1, m + 5, n + 5);
        assert NumberCond(And(Tied(MySQL, specs[i], m + 3), After(MySQL, specs, i + 1, m + 5)), n + 3) ==
          (And(Tied(PostgreSQL, specs[i], n + 3), After(PostgreSQL, specs, i + 1, n + 5)),
           n + 5 + Placeholders(After(PostgreSQL, specs, i + 1, n + 5)));
      }
    }
  }

  // ---- ORDER BY ----

  function OrderItems(engine: Engine, s: SortSpec): seq<OrderItem>
  {
    if engine.PostgreSQL? then [WithNulls(s.column, s.asc, s.nullsLast)]
    else [RankCase(s.column, s.NullRank(), 1 - s.NullRank()), Plain(s.column, s.asc)]
  }

  function OrderBy(engine: Engine, specs: seq<SortSpec>): seq<OrderItem>
  {
    if specs == [] then [] else OrderItems(engine, specs[0]) + OrderBy(engine, specs[1..])
  }

  lemma {:induction false} OrderBySnoc(engine: Engine, specs: seq<SortSpec>, i: nat)
    requires i < |specs|
    ensures OrderBy(engine, specs[..i + 1]) == OrderBy(engine, specs[..i]) + OrderItems(engine, specs[i])
  {
    if i == 0 {
      assert specs[..1][1..] == [];
    } else {
      OrderBySnoc(engine, specs[1..], i - 1);
      assert specs[..i + 1][1..] == specs[1..][..i];
      assert specs[..i][1..] == specs[1..][..i - 1];
    }
  }

  method BuildOrderByClause(specs: seq<SortSpec>, engine: Engine) returns (parts: seq<OrderItem>)
    ensures parts == OrderBy(engine, specs)
  {
    parts := [];
    for i := 0 to |specs|
      invariant parts == OrderBy(engine, specs[..i])
    {
      var s := specs[i];
      if engine.PostgreSQL? {
        parts := parts + [WithNulls(s.column, s.asc, s.nullsLast)];
      } else {
        var nr := if s.nullsLast then 1 else 0;
        parts := parts + [RankCase(s.column, nr, 1 - nr), Plain(s.column, s.asc)];
      }
      OrderBySnoc(engine, specs, i);
    }
    assert specs[..|specs|] == specs;
  }

  // Both dialects' clauses denote the order that the continuation predicate walks.
  lemma {:induction false} OrderByIsKeysetOrder(engine: Engine, specs: seq<SortSpec>, i: nat, cols: Header,
      a: Row, b: Row)
    requires i <= |specs|
    ensures CompareByItems(OrderBy(engine, specs[i..]), cols, a, b) == CompareFrom(specs, i, cols, a, b)
    decreases |specs| - i
  {
    if i < |specs| {
      var s := specs[i];
      var (x, y) := (Field(cols, a, s.column), Field(cols, b, s.column));
      OrderByIsKeysetOrder(engine, specs, i + 1, cols, a, b);
      assert specs[i..][1..] == specs[i + 1..];
      var rest := OrderBy(engine, specs[i + 1..]);
      var items := OrderItems(engine, s) + rest;
      assert OrderBy(engine, specs[i..]) == items;
      if engine.PostgreSQL? {
        assert items[1..] == rest;
        assert CompareItem(items[0], x, y) == CompareValues(s, x, y);
      } else {
        assert items[1..] == [Plain(s.column, s.asc)] + rest;
        assert items[1..][1..] == rest;
        assert CompareItem(items[0], x, y) == Sign(if x.Null? then s.NullRank() else s.NonNullRank(),
                                                   if y.Null? then s.NullRank() else s.NonNullRank());
        assert CompareByItems(items[1..], cols, a, b) ==
          if CompareItem(Plain(s.column, s.asc), x, y) != 0 then CompareItem(Plain(s.column, s.asc), x, y)
          else CompareByItems(rest, cols, a, b);
      }
    }
  }

  lemma {:induction false} CompareAntisymmetric(specs: seq<SortSpec>, i: nat, cols: Header, a: Row, b: Row)
    ensures CompareFrom(specs, i, cols, a, b) == -CompareFrom(specs, i, cols, b, a)
    decreases |specs| - i
  {
    if i < |specs| { CompareAntisymmetric(specs, i + 1, cols, a, b); }
  }

  lemma {:induction false} CompareTransitive(specs: seq<SortSpec>, i: nat, cols: Header, a: Row, b: Row, c: Row)
    requires CompareFrom(specs, i, cols, a, b) <= 0 && CompareFrom(specs, i, cols, b, c) <= 0
    ensures CompareFrom(specs, i, cols, a, c) <= 0
    ensures CompareFrom(specs, i, cols, a, c) == 0 ==> CompareFrom(specs, i, cols, a, b) == 0
    decreases |specs| - i
  {
    if i < |specs| {
      var s := specs[i];
      var (x, y, z) := (Field(cols, a, s.column), Field(cols, b, s.column), Field(cols, c, s.column));
      if CompareValues(s, x, y) == 0 && CompareValues(s, y, z) == 0 {
        CompareTransitive(specs, i + 1, cols, a, b, c);
      }
    }
  }

  // ---- The whole page query ----

  datatype PageQuery = PageQuery(where: Option<Cond>, order: seq<OrderItem>, limit: Placeholder)

  // What the server makes of the text: PostgreSQL reads the numbers, MySQL counts the `?`s,
  // the first inner of which belong to the wrapped statement.
  function BoundWhere(engine: Engine, q: PageQuery, inner: nat): Cond
    requires q.where.Some?
  {
    if engine.MySQL? then NumberCond(q.where.value, inner + 1).0 else q.where.value
  }

  function BoundLimit(engine: Engine, q: PageQuery, inner: nat): Placeholder
  {
    var next := if q.where.Some? then NumberCond(q.where.value, inner + 1).1 else inner + 1;
    if engine.MySQL? then NumberPlaceholder(q.limit, next).0 else q.limit
  }

  // The rows a page query selects, the order it asks for and the number of rows it allows.
  predicate Selects(engine: Engine, q: PageQuery, args: seq<Arg>, inner: nat, cols: Header, row: Row)
  {
    q.where.None? || EvalCond(BoundWhere(engine, q, inner), cols, row, args).True?
  }

  function LimitOf(engine: Engine, q: PageQuery, args: seq<Arg>, inner: nat): Option<int>
  {
    match Argument(args, BoundLimit(engine, q, inner))
    case Limit(n) => Some(n)
    case _ => None
  }

  function WrappedQuery(engine: Engine, specs: seq<SortSpec>, continued: bool, inner: nat): PageQuery
  {
    PageQuery(if continued then Some(After(engine, specs, 0, inner + 1)) else None,
              OrderBy(engine, specs),
              PlaceholderFor(engine, inner + 1 + (if continued then Consumed(|specs|) else 0)))
  }

  // No last values, no condition.
  function ConditionArgs(lastVals: seq<Arg>, specs: seq<SortSpec>): seq<Arg>
    requires |lastVals| > 0 ==> |lastVals| == 2 * |specs|
  {
    if |lastVals| > 0 then AfterArgs(lastVals, |specs|, 0) else []
  }

  method BuildWrappedSQL(specs: seq<SortSpec>, engine: Engine, lastVals: seq<Arg>, args: seq<Arg>, limit: int)
    returns (query: PageQuery, allArgs: seq<Arg>)
    requires |lastVals| > 0 ==> |lastVals| == 2 * |specs|
    ensures query == WrappedQuery(engine, specs, |lastVals| > 0, |args|)
    ensures allArgs == args + ConditionArgs(lastVals, specs) + [Limit(limit)]
  {
    hide After, AfterArgs, OrderBy, Consumed;
    var order := BuildOrderByClause(specs, engine);
    allArgs := args;
    var b := new KsBuilder(engine, specs, lastVals, |args| + 1);
    var where := None;
    if |lastVals| > 0 {
      var c := b.BuildAfter(0);
      where := Some(c);
      allArgs := allArgs + b.args;
      AfterArgsCount(lastVals, |specs|, 0);
    }
    query := PageQuery(where, order, if engine.MySQL? then Question else Dollar(b.pgN));
    allArgs := allArgs + [Limit(limit)];
  }

  // A continuation query selects exactly the rows strictly after the last one, up to its limit.
  lemma WrappedQueryIsExact(engine: Engine, specs: seq<SortSpec>, cols: Header, last: Row,
      vals: seq<Arg>, args: seq<Arg>, limit: int, row: Row)
    requires CursorOf(vals, specs, cols, last)
    ensures var q := WrappedQuery(engine, specs, true, |args|);
      var all := args + AfterArgs(vals, |specs|, 0) + [Limit(limit)];
      EvalCond(BoundWhere(engine, q, |args|), cols, row, all) == ToTruth(CompareRows(specs, cols, row, last) > 0)
      && LimitOf(engine, q, all, |args|) == Some(limit)
  {
    var n := |args| + 1;
    var used := AfterArgs(vals, |specs|, 0);
    var all := args + used + [Limit(limit)];
    AfterArgsCount(vals, |specs|, 0);
    assert all[n - 1..n - 1 + |used|] == used;
    AfterIsExact(specs, 0, n, cols, row, last, vals, all);
    NumberingAfter(specs, 0, n, n);
    assert all[n + |used| - 1] == Limit(limit);
  }
}
