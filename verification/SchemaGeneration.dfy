/** apps/api/internal/queryplan/schema.go: the bytes that the schema generation of a table is a hash of. */
module SchemaGeneration {
  import opened Prelude
  import opened Decimal
  import opened QueryPlan

  // ---- The encoding; characters stand for bytes ----

  function Pow256(k: nat): (p: nat)
    ensures p > 0
  {
    if k == 0 then 1 else 256 * Pow256(k - 1)
  }

  // n in k bytes, most significant first
  function BigEndian(k: nat, n: nat): (s: string)
    ensures |s| == k
  {
    if k == 0 then [] else BigEndian(k - 1, n / 256) + [(n % 256) as char]
  }

  // writeStr
  function Str(s: string): string { BigEndian(8, |s|) + s }

  function Strs(names: seq<string>): string
  {
    if names == [] then [] else Str(names[0]) + Strs(names[1..])
  }

  function ColumnBytes(c: Column): string
  {
    Str(c.name) + Str(IntText(c.ordinal)) + [if c.nullable then 1 as char else 0 as char]
  }

  function Columns(cols: seq<Column>): string
  {
    if cols == [] then [] else ColumnBytes(cols[0]) + Columns(cols[1..])
  }

  function Marker(pk: Option<seq<string>>): char { if pk.Some? then 1 as char else 0 as char }

  function Flattened(uqs: seq<UniqueConstraint>): seq<string>
  {
    if uqs == [] then [] else [uqs[0].name] + uqs[0].columns + Flattened(uqs[1..])
  }

  // The names of the keys in the order in which they are written.
  function KeyNames(pk: Option<seq<string>>, uqs: seq<UniqueConstraint>): seq<string>
  {
    (if pk.Some? then pk.value else []) + Flattened(uqs)
  }

  // Whether there is a primary key, and the names.
  function KeyBytes(mark: char, names: seq<string>): string { [mark] + Strs(names) }

  // ---- The order ----

  predicate Less(a: string, b: string)
  {
    b != [] && (a == [] || a[0] < b[0] || (a[0] == b[0] && Less(a[1..], b[1..])))
  }

  // strings.Join with a zero byte
  function Joined(names: seq<string>): string
  {
    if names == [] then [] else if |names| == 1 then names[0] else names[0] + [0 as char] + Joined(names[1..])
  }

  predicate ColumnLess(a: Column, b: Column)
  {
    if a.ordinal != b.ordinal then a.ordinal < b.ordinal else Less(a.name, b.name)
  }

  predicate ConstraintLess(a: UniqueConstraint, b: UniqueConstraint)
  {
    if a.name != b.name then Less(a.name, b.name) else Less(Joined(a.columns), Joined(b.columns))
  }

  // What sort.Slice leaves: nothing stands before something less.
  ghost predicate InOrder<T(!new)>(less: (T, T) -> bool, s: seq<T>)
  {
    forall i, j :: 0 <= i < j < |s| ==> !less(s[j], s[i])
  }

  // The sorted copies of the columns and of the constraints.
  ghost predicate Arranged(m: TableMetadata, cols: seq<Column>, uqs: seq<UniqueConstraint>)
  {
    && multiset(cols) == multiset(m.columns) && InOrder(ColumnLess, cols)
    && multiset(uqs) == multiset(m.uniques) && InOrder(ConstraintLess, uqs)
  }

  function Stream(m: TableMetadata, cols: seq<Column>, uqs: seq<UniqueConstraint>): string
  {
    Str(m.schema) + (Str(m.table) + (Columns(cols) + KeyBytes(Marker(m.primaryKey), KeyNames(m.primaryKey, uqs))))
  }

  // computeSchemaGeneration up to the hash; cols and uqs are the sorted copies.
  method ComputeStream(m: TableMetadata, cols: seq<Column>, uqs: seq<UniqueConstraint>) returns (h: string)
    requires Arranged(m, cols, uqs)
    ensures h == Stream(m, cols, uqs)
  {
    hide Str, Strs, Columns, Arranged, Flattened;
    h := Str(m.schema) + Str(m.table);
    var columns := WriteColumns(cols);
    h := h + columns;
    h := h + [Marker(m.primaryKey)];
    var pk := if m.primaryKey.Some? then m.primaryKey.value else [];
    var key := WriteNames(pk);
    h := h + key;
    var rest := WriteConstraints(uqs);
    h := h + rest;
    StrsOfSum(pk, Flattened(uqs));
  }

  method WriteColumns(cols: seq<Column>) returns (h: string)
    ensures h == Columns(cols)
  {
    hide Str, IntText;
    h := [];
    for i := 0 to |cols|
      invariant h + Columns(cols[i..]) == Columns(cols)
    {
      assert cols[i..][1..] == cols[i + 1..];
      h := h + Str(cols[i].name);
      h := h + Str(IntText(cols[i].ordinal));
      h := h + [if cols[i].nullable then 1 as char else 0 as char];
    }
  }

  method WriteConstraints(uqs: seq<UniqueConstraint>) returns (h: string)
    ensures h == Strs(Flattened(uqs))
  {
    hide Str, Strs;
    h := [];
    assert uqs[0..] == uqs && Strs([]) == [] by { NoStrs(); }
    for i := 0 to |uqs|
      invariant h + Strs(Flattened(uqs[i..])) == Strs(Flattened(uqs))
    {
      assert uqs[i..][1..] == uqs[i + 1..];
      StrsOfSum([uqs[i].name] + uqs[i].columns, Flattened(uqs[i + 1..]));
      var names := WriteNames([uqs[i].name] + uqs[i].columns);
      h := h + names;
    }
  }

  method WriteNames(names: seq<string>) returns (h: string)
    ensures h == Strs(names)
  {
    hide Str;
    h := [];
    for i := 0 to |names|
      invariant h + Strs(names[i..]) == Strs(names)
    {
      assert names[i..][1..] == names[i + 1..];
      h := h + Str(names[i]);
    }
  }

  lemma NoStrs()
    ensures Strs([]) == []
  {
  }

  lemma {:induction false} StrsOfSum(a: seq<string>, b: seq<string>)
    ensures Strs(a + b) == Strs(a) + Strs(b)
    decreases |a|
  {
    hide Str;
    if a == [] {
      assert a + b == b;
    } else {
      StrsOfSum(a[1..], b);
      assert (a + b)[1..] == a[1..] + b && (a + b)[0] == a[0];
    }
  }

  // ---- The order of the input does not matter ----

  ghost predicate TiesAreEqual<T(!new)>(less: (T, T) -> bool, s: seq<T>)
  {
    forall a, b :: a in s && b in s && !less(a, b) && !less(b, a) ==> a == b
  }

  lemma FirstsAgree<T(!new)>(less: (T, T) -> bool, s: seq<T>, t: seq<T>)
    requires multiset(s) == multiset(t) && InOrder(less, s) && InOrder(less, t) && TiesAreEqual(less, s)
    requires s != [] && t != []
    ensures s[0] == t[0]
  {
    assert t[0] in multiset(s) && s[0] in multiset(t);
    var i :| 0 <= i < |s| && s[i] == t[0];
    var j :| 0 <= j < |t| && t[j] == s[0];
  }

  lemma OrderOfTail<T(!new)>(less: (T, T) -> bool, s: seq<T>)
    requires s != [] && InOrder(less, s)
    ensures InOrder(less, s[1..]) && (TiesAreEqual(less, s) ==> TiesAreEqual(less, s[1..]))
  {
  }

  // Sorting has only one outcome where things that tie are equal.
  lemma {:induction false} SortedOnce<T(!new)>(less: (T, T) -> bool, s: seq<T>, t: seq<T>)
    requires multiset(s) == multiset(t) && InOrder(less, s) && InOrder(less, t) && TiesAreEqual(less, s)
    ensures s == t
    decreases |s|
  {
    assert |multiset(s)| == |s| && |multiset(t)| == |t|;
    if s != [] {
      FirstsAgree(less, s, t);
      MultisetTail(s);
      MultisetTail(t);
      OrderOfTail(less, s);
      OrderOfTail(less, t);
      hide InOrder, TiesAreEqual;
      SortedOnce(less, s[1..], t[1..]);
    }
  }

  lemma {:induction false} StringsTie(a: string, b: string)
    requires !Less(a, b) && !Less(b, a)
    ensures a == b
    decreases |a|
  {
    if a != [] && b != [] {
      StringsTie(a[1..], b[1..]);
      assert a == [a[0]] + a[1..] && b == [b[0]] + b[1..];
    }
  }

  predicate NoZero(s: string) { forall i :: 0 <= i < |s| ==> s[i] != 0 as char }

  // The first zero byte ends the first name.
  lemma JoinedStart(a: seq<string>)
    requires a != []
    ensures var (x, n) := (Joined(a), |a[0]|);
      && |x| >= n && (|a| == 1 <==> |x| == n) && (|a| > 1 ==> x[n] == 0 as char && x[n + 1..] == Joined(a[1..]))
      && forall i :: 0 <= i < n ==> x[i] == a[0][i]
  {
  }

  lemma {:induction false} JoinedOnce(a: seq<string>, b: seq<string>)
    requires a != [] && b != [] && Joined(a) == Joined(b)
    requires (forall i :: 0 <= i < |a| ==> NoZero(a[i])) && forall i :: 0 <= i < |b| ==> NoZero(b[i])
    ensures a == b
    decreases |a|
  {
    JoinedStart(a);
    JoinedStart(b);
    var (x, y) := (Joined(a), Joined(b));
    assert |a[0]| == |b[0]|;
    forall i | 0 <= i < |a[0]| ensures a[0][i] == b[0][i] {
      assert x[i] == y[i];
    }
    assert a[0] == b[0] && (|a| == 1 <==> |b| == 1);
    if |a| > 1 {
      JoinedOnce(a[1..], b[1..]);
    }
    assert a == [a[0]] + a[1..] && b == [b[0]] + b[1..];
  }

  lemma ConstraintTies(a: UniqueConstraint, b: UniqueConstraint)
    requires a.columns != [] && b.columns != [] && !ConstraintLess(a, b) && !ConstraintLess(b, a)
    requires (forall k :: 0 <= k < |a.columns| ==> NoZero(a.columns[k])) && forall k :: 0 <= k < |b.columns| ==> NoZero(b.columns[k])
    ensures a == b
  {
    hide Less, Joined, NoZero;
    if a.name != b.name {
      StringsTie(a.name, b.name);
    } else {
      StringsTie(Joined(a.columns), Joined(b.columns));
      JoinedOnce(a.columns, b.columns);
    }
  }

  lemma KnownColumnsHaveNoZero(m: TableMetadata, key: seq<string>, k: nat)
    requires ValidMetadata(m) && KeyColumnsKnown(m.columns, key) && k < |key|
    ensures NoZero(key[k]) && ValidIdent(key[k])
  {
    assert ColumnNamed(m.columns, key[k]);
  }

  lemma ValidTies(m: TableMetadata, cols: seq<Column>, uqs: seq<UniqueConstraint>)
    requires ValidMetadata(m) && multiset(cols) == multiset(m.columns) && multiset(uqs) == multiset(m.uniques)
    ensures TiesAreEqual(ColumnLess, cols) && TiesAreEqual(ConstraintLess, uqs)
  {
    forall a, b | a in cols && b in cols && !ColumnLess(a, b) && !ColumnLess(b, a) ensures a == b {
      assert a in multiset(m.columns) && b in multiset(m.columns);
      StringsTie(a.name, b.name);
    }
    forall a, b | a in uqs && b in uqs && !ConstraintLess(a, b) && !ConstraintLess(b, a) ensures a == b {
      assert a in multiset(m.uniques) && b in multiset(m.uniques);
      forall u, k | u in {a, b} && 0 <= k < |u.columns| ensures NoZero(u.columns[k]) {
        KnownColumnsHaveNoZero(m, u.columns, k);
      }
      ConstraintTies(a, b);
    }
  }

  // The bytes hashed do not depend on the order in which columns and constraints are given, nor on how ties are sorted.
  lemma StreamIgnoresOrder(m: TableMetadata, m': TableMetadata, cols: seq<Column>, uqs: seq<UniqueConstraint>,
      cols': seq<Column>, uqs': seq<UniqueConstraint>)
    requires ValidMetadata(m) && Arranged(m, cols, uqs) && Arranged(m', cols', uqs')
    requires m.schema == m'.schema && m.table == m'.table && m.primaryKey == m'.primaryKey
    requires multiset(m.columns) == multiset(m'.columns) && multiset(m.uniques) == multiset(m'.uniques)
    ensures Stream(m, cols, uqs) == Stream(m', cols', uqs')
  {
    hide Stream, ValidMetadata, TiesAreEqual, InOrder;
    ValidTies(m, cols, uqs);
    SortedOnce(ColumnLess, cols, cols');
    SortedOnce(ConstraintLess, uqs, uqs');
    SameStream(m, m', cols, uqs);
  }

  lemma SameStream(m: TableMetadata, m': TableMetadata, cols: seq<Column>, uqs: seq<UniqueConstraint>)
    requires m.schema == m'.schema && m.table == m'.table && m.primaryKey == m'.primaryKey
    ensures Stream(m, cols, uqs) == Stream(m', cols, uqs)
  {
  }

  // ---- What the bytes determine ----

  lemma {:induction false} BigEndianOnce(k: nat, a: nat, b: nat)
    requires a < Pow256(k) && b < Pow256(k) && BigEndian(k, a) == BigEndian(k, b)
    ensures a == b
  {
    if k > 0 {
      var (s, t) := (BigEndian(k, a), BigEndian(k, b));
      assert s[..k - 1] == BigEndian(k - 1, a / 256) && t[..k - 1] == BigEndian(k - 1, b / 256);
      assert s[k - 1] == t[k - 1];
      BigEndianOnce(k - 1, a / 256, b / 256);
    }
  }

  lemma {:induction false} LeadingBytes(k: nat, i: nat)
    requires i < k
    ensures BigEndian(k, 0)[i] == 0 as char
  {
    if i < k - 1 { LeadingBytes(k - 1, i); }
  }

  // The length of a short text takes one byte behind seven zeros.
  lemma ShortLength(n: nat)
    requires n < 256
    ensures BigEndian(8, n)[7] == n as char && forall i :: 0 <= i < 7 ==> BigEndian(8, n)[i] == 0 as char
  {
    assert BigEndian(8, n) == BigEndian(7, 0) + [n as char];
    forall i | 0 <= i < 7 ensures BigEndian(8, n)[i] == 0 as char {
      LeadingBytes(7, i);
    }
  }

  lemma EightBytes()
    ensures Pow256(8) == 0x1_0000_0000_0000_0000
  {
    assert Pow256(8) == 256 * Pow256(7) == 0x1_0000 * Pow256(6) == 0x100_0000 * Pow256(5) == 0x1_0000_0000 * Pow256(4);
    assert Pow256(4) == 256 * Pow256(3) == 0x1_0000 * Pow256(2) == 0x100_0000 * Pow256(1) == 0x1_0000_0000 * Pow256(0);
  }

  predicate Fits(s: string) { |s| < 0x1_0000_0000_0000_0000 }

  // A text written with its length is read back, whatever follows it.
  lemma StrOnce(a: string, b: string, x: string, y: string)
    requires Fits(a) && Fits(b) && Str(a) + x == Str(b) + y
    ensures a == b && x == y
  {
    hide BigEndian;
    var (s, t) := (Str(a) + x, Str(b) + y);
    assert s[..8] == BigEndian(8, |a|) && t[..8] == BigEndian(8, |b|);
    EightBytes();
    BigEndianOnce(8, |a|, |b|);
    assert s[8..8 + |a|] == a && t[8..8 + |b|] == b && s[8 + |a|..] == x && t[8 + |b|..] == y;
  }

  predicate AllFit(names: seq<string>) { forall i :: 0 <= i < |names| ==> Fits(names[i]) }

  lemma {:induction false} StrsOnce(a: seq<string>, b: seq<string>)
    requires AllFit(a) && AllFit(b) && Strs(a) == Strs(b)
    ensures a == b
    decreases |a|
  {
    hide BigEndian;
    if a != [] && b != [] {
      hide Str;
      StrOnce(a[0], b[0], Strs(a[1..]), Strs(b[1..]));
      StrsOnce(a[1..], b[1..]);
      assert a == [a[0]] + a[1..] && b == [b[0]] + b[1..];
    }
  }

  lemma IntTextOnce(a: int, b: int)
    requires IntText(a) == IntText(b) && a > 0 && b > 0
    ensures a == b
  {
    DigitsInjective(a, b);
  }

  // Column ordinals are 64-bit integers.
  predicate ColumnsFit(cols: seq<Column>)
  {
    forall i :: 0 <= i < |cols| ==> ValidIdent(cols[i].name) && 0 < cols[i].ordinal < 0x8000_0000_0000_0000
  }

  lemma ColumnOnce(a: Column, b: Column, x: string, y: string)
    requires ColumnsFit([a]) && ColumnsFit([b]) && ColumnBytes(a) + x == ColumnBytes(b) + y
    ensures a == b && x == y
  {
    assert [a][0] == a && [b][0] == b;
    var (p, q) := (IntText(a.ordinal), IntText(b.ordinal));
    TextFits(a.ordinal);
    TextFits(b.ordinal);
    ColumnParts(a, x);
    ColumnParts(b, y);
    hide Str, IntText, ColumnBytes, Flag;
    StrOnce(a.name, b.name, Str(p) + ([Flag(a)] + x), Str(q) + ([Flag(b)] + y));
    StrOnce(p, q, [Flag(a)] + x, [Flag(b)] + y);
    IntTextOnce(a.ordinal, b.ordinal);
    FlagOnce(a, x, b, y);
  }

  function Flag(c: Column): char { if c.nullable then 1 as char else 0 as char }

  lemma ColumnParts(c: Column, x: string)
    ensures ColumnBytes(c) + x == Str(c.name) + (Str(IntText(c.ordinal)) + ([Flag(c)] + x))
  {
    hide Str, IntText;
  }

  lemma FlagOnce(a: Column, x: string, b: Column, y: string)
    requires [Flag(a)] + x == [Flag(b)] + y
    ensures a.nullable == b.nullable && x == y
  {
    assert ([Flag(a)] + x)[0] == Flag(a) && ([Flag(b)] + y)[0] == Flag(b);
    assert ([Flag(a)] + x)[1..] == x && ([Flag(b)] + y)[1..] == y;
  }

  lemma TextFits(n: int)
    requires 0 < n < 0x8000_0000_0000_0000
    ensures Fits(IntText(n))
  {
    DigitsAreFewerThan(n);
  }

  // Behind this marker no bytes can be taken for a further column: a primary key is there, or the first name written, if
  // any, has less than 256 bytes, as every supported database has them.
  predicate Delimits(mark: char, names: seq<string>)
  {
    mark == 1 as char || names == [] || |names[0]| < 256
  }

  // A column does not begin like such a marker.
  lemma ColumnIsNoMarker(c: Column, x: string, mark: char, names: seq<string>)
    requires ColumnsFit([c]) && Delimits(mark, names)
    ensures ColumnBytes(c) + x != KeyBytes(mark, names)
  {
    assert [c][0] == c;
    hide BigEndian, IntText, Strs;
    var (s, t) := (ColumnBytes(c) + x, KeyBytes(mark, names));
    ShortLength(|c.name|);
    assert s[0] == BigEndian(8, |c.name|)[0] && s[7] == BigEndian(8, |c.name|)[7] == |c.name| as char;
    if names == [] {
      NoStrs();
      assert |t| == 1;
    } else if mark != 1 as char {
      var n := |names[0]|;
      ShortLength(n);
      StrsBegin(names);
      assert t[7] == Strs(names)[6] == BigEndian(8, n)[6];
    }
  }

  lemma StrsBegin(names: seq<string>)
    requires names != []
    ensures |Strs(names)| >= 8 && Strs(names)[..8] == BigEndian(8, |names[0]|)
  {
    hide BigEndian;
    assert Strs(names) == BigEndian(8, |names[0]|) + (names[0] + Strs(names[1..]));
  }

  lemma ColumnsBegin(cols: seq<Column>, x: string)
    requires cols != []
    ensures Columns(cols) + x == ColumnBytes(cols[0]) + (Columns(cols[1..]) + x)
  {
    hide ColumnBytes;
  }

  lemma KeyBytesOnce(mark: char, names: seq<string>, mark': char, names': seq<string>)
    requires AllFit(names) && AllFit(names') && KeyBytes(mark, names) == KeyBytes(mark', names')
    ensures mark == mark' && names == names'
  {
    hide Strs;
    var (s, t) := (KeyBytes(mark, names), KeyBytes(mark', names'));
    assert s[0] == mark && t[0] == mark' && s[1..] == Strs(names) && t[1..] == Strs(names');
    StrsOnce(names, names');
  }

  lemma NoColumns(x: string)
    ensures Columns([]) + x == x
  {
  }

  lemma {:induction false} TailOnce(cols: seq<Column>, mark: char, names: seq<string>, cols': seq<Column>, mark': char,
      names': seq<string>)
    requires ColumnsFit(cols) && ColumnsFit(cols') && AllFit(names) && AllFit(names')
    requires Delimits(mark, names) && Delimits(mark', names')
    requires Columns(cols) + KeyBytes(mark, names) == Columns(cols') + KeyBytes(mark', names')
    ensures cols == cols' && mark == mark' && names == names'
    decreases |cols|
  {
    hide ColumnBytes, Columns, KeyBytes;
    var (x, x') := (KeyBytes(mark, names), KeyBytes(mark', names'));
    if cols == [] { NoColumns(x); } else { ColumnsBegin(cols, x); }
    if cols' == [] { NoColumns(x'); } else { ColumnsBegin(cols', x'); }
    if cols == [] && cols' == [] {
      KeyBytesOnce(mark, names, mark', names');
    } else if cols == [] {
      ColumnIsNoMarker(cols'[0], Columns(cols'[1..]) + x', mark, names);
    } else if cols' == [] {
      ColumnIsNoMarker(cols[0], Columns(cols[1..]) + x, mark', names');
    } else {
      ColumnOnce(cols[0], cols'[0], Columns(cols[1..]) + x, Columns(cols'[1..]) + x');
      TailOnce(cols[1..], mark, names, cols'[1..], mark', names');
      assert cols == [cols[0]] + cols[1..] && cols' == [cols'[0]] + cols'[1..];
    }
  }

  // What the bytes say: schema and table, the sorted columns, whether there is a primary key, and the names of all keys
  // and constraints as one sequence.
  predicate SaysTheSame(m: TableMetadata, cols: seq<Column>, uqs: seq<UniqueConstraint>,
      m': TableMetadata, cols': seq<Column>, uqs': seq<UniqueConstraint>)
  {
    && m.schema == m'.schema && m.table == m'.table && cols == cols' && m.primaryKey.Some? == m'.primaryKey.Some?
    && KeyNames(m.primaryKey, uqs) == KeyNames(m'.primaryKey, uqs')
  }

  // Two tables have the same bytes if and only if these agree.
  lemma StreamDetermines(m: TableMetadata, cols: seq<Column>, uqs: seq<UniqueConstraint>,
      m': TableMetadata, cols': seq<Column>, uqs': seq<UniqueConstraint>)
    requires ValidMetadata(m) && ValidMetadata(m') && ColumnsFit(cols) && ColumnsFit(cols')
    requires AllFit(KeyNames(m.primaryKey, uqs)) && AllFit(KeyNames(m'.primaryKey, uqs'))
    requires Delimits(Marker(m.primaryKey), KeyNames(m.primaryKey, uqs))
    requires Delimits(Marker(m'.primaryKey), KeyNames(m'.primaryKey, uqs'))
    ensures Stream(m, cols, uqs) == Stream(m', cols', uqs') <==> SaysTheSame(m, cols, uqs, m', cols', uqs')
  {
    assert Fits(m.schema) && Fits(m.table) && Fits(m'.schema) && Fits(m'.table);
    hide Str, Columns, KeyBytes, KeyNames, ValidMetadata, AllFit, ColumnsFit, Delimits, Marker;
    if Stream(m, cols, uqs) == Stream(m', cols', uqs') {
      var (mark, names) := (Marker(m.primaryKey), KeyNames(m.primaryKey, uqs));
      var (mark', names') := (Marker(m'.primaryKey), KeyNames(m'.primaryKey, uqs'));
      var (tail, tail') := (Columns(cols) + KeyBytes(mark, names), Columns(cols') + KeyBytes(mark', names'));
      StrOnce(m.schema, m'.schema, Str(m.table) + tail, Str(m'.table) + tail');
      StrOnce(m.table, m'.table, tail, tail');
      TailOnce(cols, mark, names, cols', mark', names');
    }
  }

  // ---- What they do not determine ----

  lemma KnownColumn(cols: seq<Column>, name: string, i: nat)
    requires i < |cols| && cols[i].name == name
    ensures KeyColumnsKnown(cols, [name])
  {
    assert ColumnNamed(cols, name);
  }

  // A primary key (a, b, a) and no constraint, or a primary key (a) and a constraint named b on a.
  lemma KeysAreNotDelimited(schema: string, table: string)
    requires ValidIdent(schema) && ValidIdent(table)
    ensures var cols := [Column("a", 1, false), Column("b", 2, false)];
      var m := TableMetadata(schema, table, cols, Some(["a", "b", "a"]), []);
      var m' := TableMetadata(schema, table, cols, Some(["a"]), [UniqueConstraint("b", ["a"])]);
      ValidMetadata(m) && ValidMetadata(m') && Stream(m, cols, m.uniques) == Stream(m', cols, m'.uniques)
  {
    var cols := [Column("a", 1, false), Column("b", 2, false)];
    KnownColumn(cols, "a", 0);
    KnownColumn(cols, "b", 1);
    assert ColumnNamed(cols, ["a"][0]) && ColumnNamed(cols, ["b"][0]);
    OneConstraint(UniqueConstraint("b", ["a"]));
    assert KeyNames(Some(["a", "b", "a"]), []) == KeyNames(Some(["a"]), [UniqueConstraint("b", ["a"])]) by {
      assert KeyNames(Some(["a"]), [UniqueConstraint("b", ["a"])]) == ["a"] + KeyNames(None, [UniqueConstraint("b", ["a"])]);
    }
  }

  const ZERO := 0 as char

  function LongName(name: string): string { Str("2") + [ZERO, ZERO] + Str(name) }

  // The bytes from the marker of an absent primary key through a constraint with a long name, read as a second column b,
  // then the marker, then a constraint of the inner name.
  lemma LongNameHidesColumn(name: string)
    requires |name| == 335
    ensures [ZERO] + Str(LongName(name)) == ColumnBytes(Column("b", 2, false)) + ([ZERO] + Str(name))
  {
    hide BigEndian;
    var long := LongName(name);
    assert |long| == 354 && IntText(2) == "2";
    LongLength();
    assert [ZERO] + Str(long) == ([ZERO] + BigEndian(8, 354)) + long;
    assert Str("b") == BigEndian(8, 1) + "b";
    assert [ZERO] + Str(long) == Str("b") + long;
    hide Str;
    assert ColumnBytes(Column("b", 2, false)) + ([ZERO] + Str(name)) == Str("b") + (Str("2") + [ZERO, ZERO] + Str(name));
  }

  lemma LongNameIsValid(name: string)
    ensures LongName(name) != ""
  {
  }

  lemma TwoStrs(a: string, b: string)
    ensures Strs([a, b]) == Str(a) + Str(b)
  {
    hide Str;
    assert [a, b][1..] == [b] && [b][1..] == [] && Strs([b]) == Str(b) + Strs([]) == Str(b);
  }

  lemma OneConstraint(u: UniqueConstraint)
    ensures KeyNames(None, [u]) == [u.name] + u.columns
  {
    assert [u][1..] == [] && Flattened([u]) == [u.name] + u.columns + Flattened([]) == [u.name] + u.columns;
  }

  // Without a primary key, and with a first constraint name of 256 bytes or more, its length reads like the beginning of a
  // further column: a table with the column a alone and one with a second column b have the same bytes.
  lemma LongNamesReadAsColumns(schema: string, table: string, name: string)
    requires |name| == 335 && ValidIdent(schema) && ValidIdent(table)
    ensures var a := Column("a", 1, false);
      var m := TableMetadata(schema, table, [a], None, [UniqueConstraint(LongName(name), ["a"])]);
      var m' := TableMetadata(schema, table, [a, Column("b", 2, false)], None, [UniqueConstraint(name, ["a"])]);
      ValidMetadata(m) && ValidMetadata(m') && Stream(m, m.columns, m.uniques) == Stream(m', m'.columns, m'.uniques)
  {
    LongNameIsValid(name);
    hide Str, ColumnBytes, Columns, Strs, Flattened, LongName;
    KnownColumn([Column("a", 1, false)], "a", 0);
    KnownColumn([Column("a", 1, false), Column("b", 2, false)], "a", 0);
    var (a, b, long) := (Column("a", 1, false), Column("b", 2, false), LongName(name));
    OneConstraint(UniqueConstraint(long, ["a"]));
    OneConstraint(UniqueConstraint(name, ["a"]));
    TwoStrs(long, "a");
    TwoStrs(name, "a");
    assert [long] + ["a"] == [long, "a"] && [name] + ["a"] == [name, "a"];
    assert KeyBytes(ZERO, [long, "a"]) == ([ZERO] + Str(long)) + Str("a");
    LongNameHidesColumn(name);
    var rest := KeyBytes(ZERO, [name, "a"]);
    assert rest == ([ZERO] + Str(name)) + Str("a");
    assert KeyBytes(ZERO, [long, "a"]) == ColumnBytes(b) + rest;
    ColumnsBegin([a], KeyBytes(ZERO, [long, "a"]));
    ColumnsBegin([a, b], rest);
    ColumnsBegin([b], rest);
    assert [a][1..] == [] && [a, b][1..] == [b] && [b][1..] == [];
    NoColumns(KeyBytes(ZERO, [long, "a"]));
    NoColumns(rest);
  }

  lemma LongLength()
    ensures [0 as char] + BigEndian(8, 354) == BigEndian(8, 1) + "b"
  {
    assert BigEndian(8, 354) == BigEndian(6, 0) + [1 as char, 98 as char];
    assert BigEndian(8, 1) == BigEndian(7, 0) + [1 as char];
    assert 98 as char == 'b';
    assert [0 as char] + BigEndian(6, 0) == BigEndian(7, 0) by {
      forall i | 0 <= i < 6 ensures BigEndian(6, 0)[i] == 0 as char { LeadingBytes(6, i); }
      forall i | 0 <= i < 7 ensures BigEndian(7, 0)[i] == 0 as char { LeadingBytes(7, i); }
    }
  }
}
