/** The fragment of SQL that the adapter emits, with the three-valued semantics of a WHERE clause
    (section 8.12 of ISO/IEC 9075:1992) and the meaning of an ORDER BY clause. */
module Sql {
  // A cell. Comparable values are represented by their rank in the column's collation order,
  // so two values that the database treats as equal have the same rank.
  datatype Value = Null | Val(rank: int)

  type Row = seq<Value>

  datatype Engine = PostgreSQL | MySQL

  // What the driver binds to a placeholder.
  datatype Arg = Flag(on: bool) | Cell(value: Value) | Limit(count: int)

  // PostgreSQL names the argument ($k, counted from 1); MySQL takes the next one (?).
  datatype Placeholder = Dollar(k: nat) | Question

  datatype Term =
    | Column(name: string)
    | Number(n: int)
    | Bound(ph: Placeholder)
    | CaseNull(name: string, ifNull: int, ifNot: int)      // CASE WHEN col IS NULL THEN .. ELSE .. END
    | CaseFlag(ph: Placeholder, ifTrue: int, ifFalse: int) // CASE WHEN ph THEN .. ELSE .. END

  datatype Op = Lt | Eq | Gt

  datatype Cond =
    | Never                                 // FALSE
    | Compare(op: Op, l: Term, r: Term)
    | And(left: Cond, right: Cond)
    | Or(left: Cond, right: Cond)

  datatype Truth = True | False | Unknown

  // ---- Names ----

  function FoldChar(c: char): char { if 'A' <= c <= 'Z' then c - 'A' + 'a' else c }

  function Fold(s: string): string { seq(|s|, i requires 0 <= i < |s| => FoldChar(s[i])) }

  // MySQL column names are case-insensitive; identifiers are ASCII here (ValidIdent).
  predicate SameIdent(dialect: Engine, a: string, b: string)
  {
    if dialect.MySQL? then Fold(a) == Fold(b) else a == b
  }

  // In PostgreSQL the same text; in MySQL the same letters, capital or small, and everything else alike.
  lemma SameIdentIff(dialect: Engine, a: string, b: string)
    ensures SameIdent(dialect, a, b) <==>
      if dialect.PostgreSQL? then a == b
      else |a| == |b| && forall i :: 0 <= i < |a| ==> SameLetter(a[i], b[i])
  {
    if dialect.MySQL? {
      assert forall i :: 0 <= i < |a| && i < |b| ==> (Fold(a)[i] == Fold(b)[i] <==> SameLetter(a[i], b[i]));
      assert |Fold(a)| == |a| && |Fold(b)| == |b|;
    }
  }

  // c and d are one character, or the capital and the small form of one ASCII letter.
  predicate SameLetter(c: char, d: char)
  {
    c == d || (0x41 <= c as int <= 0x5A && d as int == c as int + 0x20) || (0x41 <= d as int <= 0x5A && c as int == d as int + 0x20)
  }

  // The column names of a result, and the engine that resolves names against them.
  datatype Header = Header(engine: Engine, names: seq<string>)

  // The cell of the column that a name resolves to.
  function Field(cols: Header, row: Row, name: string): Value
  {
    FieldIn(cols.engine, cols.names, row, name)
  }

  function FieldIn(engine: Engine, names: seq<string>, row: Row, name: string): Value
  {
    if names == [] || row == [] then Null
    else if SameIdent(engine, names[0], name) then row[0]
    else FieldIn(engine, names[1..], row[1..], name)
  }

  function Argument(args: seq<Arg>, ph: Placeholder): Arg
  {
    if ph.Dollar? && 1 <= ph.k <= |args| then args[ph.k - 1] else Cell(Null)
  }

  function EvalTerm(t: Term, cols: Header, row: Row, args: seq<Arg>): Value
  {
    match t
    case Column(name) => Field(cols, row, name)
    case Number(n) => Val(n)
    case Bound(ph) => (match Argument(args, ph) case Cell(v) => v case _ => Null)
    case CaseNull(name, a, b) => if Field(cols, row, name).Null? then Val(a) else Val(b)
    case CaseFlag(ph, a, b) => if Argument(args, ph) == Flag(true) then Val(a) else Val(b)
  }

  function ToTruth(b: bool): Truth { if b then True else False }

  function EvalCond(c: Cond, cols: Header, row: Row, args: seq<Arg>): Truth
  {
    match c
    case Never => False
    case Compare(op, l, r) =>
      var (a, b) := (EvalTerm(l, cols, row, args), EvalTerm(r, cols, row, args));
      if a.Null? || b.Null? then Unknown
      else ToTruth(match op case Lt => a.rank < b.rank case Eq => a.rank == b.rank case Gt => a.rank > b.rank)
    case And(p, q) =>
      var (a, b) := (EvalCond(p, cols, row, args), EvalCond(q, cols, row, args));
      if a.False? || b.False? then False else if a.True? && b.True? then True else Unknown
    case Or(p, q) =>
      var (a, b) := (EvalCond(p, cols, row, args), EvalCond(q, cols, row, args));
      if a.True? || b.True? then True else if a.False? && b.False? then False else Unknown
  }

  // Reading the text of a term or condition from left to right, the n-th `?` takes argument n:
  // replace each by the explicit reference and return the number of the next argument.
  function NumberPlaceholder(ph: Placeholder, n: nat): (Placeholder, nat)
  {
    if ph.Question? then (Dollar(n), n + 1) else (ph, n)
  }

  function NumberTerm(t: Term, n: nat): (Term, nat)
  {
    match t
    case Bound(ph) => var (p, m) := NumberPlaceholder(ph, n); (Bound(p), m)
    case CaseFlag(ph, a, b) => var (p, m) := NumberPlaceholder(ph, n); (CaseFlag(p, a, b), m)
    case _ => (t, n)
  }

  function NumberCond(c: Cond, n: nat): (Cond, nat)
  {
    match c
    case Never => (c, n)
    case Compare(op, l, r) =>
      var (l', m) := NumberTerm(l, n);
      var (r', k) := NumberTerm(r, m);
      (Compare(op, l', r'), k)
    case And(p, q) =>
      var (p', m) := NumberCond(p, n);
      var (q', k) := NumberCond(q, m);
      (And(p', q'), k)
    case Or(p, q) =>
      var (p', m) := NumberCond(p, n);
      var (q', k) := NumberCond(q, m);
      (Or(p', q'), k)
  }

  function TermPlaceholders(t: Term): nat { if t.Bound? || t.CaseFlag? then 1 else 0 }

  function Placeholders(c: Cond): nat
  {
    match c
    case Never => 0
    case Compare(_, l, r) => TermPlaceholders(l) + TermPlaceholders(r)
    case And(p, q) => Placeholders(p) + Placeholders(q)
    case Or(p, q) => Placeholders(p) + Placeholders(q)
  }

  // One item of an ORDER BY clause.
  datatype OrderItem =
    | WithNulls(name: string, asc: bool, nullsLast: bool)   // col ASC|DESC NULLS FIRST|LAST
    | Plain(name: string, asc: bool)                        // MySQL: col ASC|DESC, NULL below every value
    | RankCase(name: string, ifNull: int, ifNot: int)       // CASE WHEN col IS NULL THEN .. ELSE .. END

  function Sign(a: int, b: int): int { if a < b then -1 else if a > b then 1 else 0 }

  function CompareItem(it: OrderItem, a: Value, b: Value): int
  {
    match it
    case WithNulls(_, asc, nullsLast) =>
      if a.Null? && b.Null? then 0
      else if a.Null? then (if nullsLast then 1 else -1)
      else if b.Null? then (if nullsLast then -1 else 1)
      else if asc then Sign(a.rank, b.rank) else Sign(b.rank, a.rank)
    case Plain(_, asc) =>
      var ascending := if a.Null? && b.Null? then 0 else if a.Null? then -1 else if b.Null? then 1 else Sign(a.rank, b.rank);
      if asc then ascending else -ascending
    case RankCase(_, x, y) => Sign(if a.Null? then x else y, if b.Null? then x else y)
  }

  // Lexicographic order of two rows under an ORDER BY list.
  function CompareByItems(items: seq<OrderItem>, cols: Header, a: Row, b: Row): int
  {
    if items == [] then 0
    else
      var c := CompareItem(items[0], Field(cols, a, items[0].name), Field(cols, b, items[0].name));
      if c != 0 then c else CompareByItems(items[1..], cols, a, b)
  }
}
