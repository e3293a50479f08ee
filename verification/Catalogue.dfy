/** apps/api/internal/adapter/schema_meta.go: unique constraints read from MySQL's catalogue. */
module Catalogue {
  import opened Prelude
  import opened Sql
  import QP = QueryPlan
  import PlanSoundness

  // One row of information_schema.STATISTICS for a non-primary unique index, in (INDEX_NAME, SEQ_IN_INDEX) order:
  // a key part is a column, a column prefix (SUB_PART) or an expression, and an expression part may have no column.
  datatype IndexPart = IndexPart(index: string, column: Option<string>, prefix: Option<int>, expression: Option<string>)

  predicate Partial(p: IndexPart) { p.prefix.Some? || p.expression.Some? || p.column.None? }

  // An index whose name appears among the parts; one bad part spoils it.
  predicate Listed(parts: seq<IndexPart>, name: string)
  {
    exists i :: 0 <= i < |parts| && parts[i].index == name
  }

  predicate Dangerous(parts: seq<IndexPart>, name: string)
  {
    exists i :: 0 <= i < |parts| && parts[i].index == name && Partial(parts[i])
  }

  // Every part of the index is a column, and no part a prefix or an expression.
  predicate WhollyPlain(parts: seq<IndexPart>, name: string)
  {
    forall i :: 0 <= i < |parts| && parts[i].index == name ==> parts[i].column.Some? && parts[i].prefix.None? && parts[i].expression.None?
  }

  // The columns of an index in key order, repeated catalogue rows dropped.
  function KeyColumns(parts: seq<IndexPart>, name: string): seq<string>
  {
    if parts == [] then []
    else
      var (before, p) := (KeyColumns(parts[..|parts| - 1], name), parts[|parts| - 1]);
      if p.index == name then Extended(before, p) else before
  }

  function Extended(columns: seq<string>, p: IndexPart): seq<string>
  {
    if p.column.Some? && p.column.value !in columns then columns + [p.column.value] else columns
  }

  datatype Group = Group(columns: seq<string>, dangerous: bool)

  method ScanMySQLUniquePairs(parts: seq<IndexPart>) returns (out: seq<QP.UniqueConstraint>)
    ensures forall n :: (exists i :: 0 <= i < |out| && out[i].name == n) <==> (Listed(parts, n) && !Dangerous(parts, n))
    ensures forall i :: 0 <= i < |out| ==> out[i].columns == KeyColumns(parts, out[i].name)
    ensures forall i, j :: 0 <= i < j < |out| ==> out[i].name != out[j].name
    ensures forall i, j :: 0 <= i < |out| && 0 <= j < |parts| && parts[j].index == out[i].name ==>
      parts[j].column.Some? && parts[j].prefix.None? && parts[j].expression.None?
    ensures forall j :: 0 <= j < |parts| && WhollyPlain(parts, parts[j].index) ==> exists i :: 0 <= i < |out| && out[i].name == parts[j].index
  {
    hide WhollyPlain;
    hide Listed, Dangerous, KeyColumns;
    var order: seq<string> := [];
    var groups: map<string, Group> := map[];
    assert Grouped(parts[..0], order, groups) by { NothingGrouped(); }
    for i := 0 to |parts|
      invariant Grouped(parts[..i], order, groups)
    {
      assert parts[..i + 1] == parts[..i] + [parts[i]];
      order, groups := AddPart(parts[..i], parts[i], order, groups);
    }
    assert parts[..|parts|] == parts;
    out := [];
    for i := 0 to |order|
      invariant forall n :: (exists j :: 0 <= j < |out| && out[j].name == n) <==> (n in order[..i] && !Dangerous(parts, n))
      invariant forall j :: 0 <= j < |out| ==> out[j].columns == KeyColumns(parts, out[j].name)
      invariant forall j, k :: 0 <= j < k < |out| ==> out[j].name != out[k].name
    {
      var name := order[i];
      ghost var (names, longer) := (order[..i], order[..i + 1]);
      assert longer == names + [name];
      if !groups[name].dangerous {
        ghost var previous := out;
        out := out + [QP.UniqueConstraint(name, groups[name].columns)];
        assert out[|previous|].name == name;
        assert forall j :: 0 <= j < |previous| ==> out[j] == previous[j];
      }
    }
    assert order[..|order|] == order;
    PlainIndexesReported(parts, out);
  }

  lemma PlainIndexesReported(parts: seq<IndexPart>, out: seq<QP.UniqueConstraint>)
    requires forall n :: (exists i :: 0 <= i < |out| && out[i].name == n) <==> (Listed(parts, n) && !Dangerous(parts, n))
    ensures forall i, j :: 0 <= i < |out| && 0 <= j < |parts| && parts[j].index == out[i].name ==>
      parts[j].column.Some? && parts[j].prefix.None? && parts[j].expression.None?
    ensures forall j :: 0 <= j < |parts| && WhollyPlain(parts, parts[j].index) ==> exists i :: 0 <= i < |out| && out[i].name == parts[j].index
  {
    forall i, j | 0 <= i < |out| && 0 <= j < |parts| && parts[j].index == out[i].name ensures !Partial(parts[j]) {
      assert !Dangerous(parts, out[i].name);
    }
    forall j | 0 <= j < |parts| && WhollyPlain(parts, parts[j].index)
      ensures exists i :: 0 <= i < |out| && out[i].name == parts[j].index
    {
      assert Listed(parts, parts[j].index) && !Dangerous(parts, parts[j].index);
    }
  }

  // The body of the scan loop; parts are the catalogue rows read before p.
  method AddPart(ghost parts: seq<IndexPart>, p: IndexPart, order: seq<string>, groups: map<string, Group>)
    returns (order': seq<string>, groups': map<string, Group>)
    requires Grouped(parts, order, groups)
    ensures Grouped(parts + [p], order', groups')
  {
    GroupedStep(parts, p, order, groups);
    hide Listed, Dangerous, KeyColumns, Orders;
    order', groups' := order, groups;
    if p.index !in groups {
      OrdersSnoc(order, groups.Keys, p.index);
      groups' := groups'[p.index := Group([], false)];
      order' := order' + [p.index];
    }
    var g := groups'[p.index];
    if Partial(p) {
      g := g.(dangerous := true);
    }
    if !g.dangerous && p.column.value !in g.columns {
      g := g.(columns := g.columns + [p.column.value]);
    }
    groups' := groups'[p.index := g];
    assert groups'.Keys == groups.Keys + {p.index};
    if p.index in groups { assert groups'.Keys == groups.Keys; }
  }

  lemma NothingGrouped()
    ensures Grouped([], [], map[])
  {
  }

  ghost predicate Grouped(parts: seq<IndexPart>, order: seq<string>, groups: map<string, Group>)
  {
    && (forall n :: n in groups <==> Listed(parts, n))
    && Orders(order, groups.Keys)
    && (forall n :: n in groups ==> groups[n].dangerous == Dangerous(parts, n))
    && (forall n :: n in groups && !groups[n].dangerous ==> groups[n].columns == KeyColumns(parts, n))
  }

  // order lists the names, each once.
  ghost predicate Orders(order: seq<string>, names: set<string>)
  {
    && (forall n :: n in order <==> n in names)
    && (forall i, j :: 0 <= i < j < |order| ==> order[i] != order[j])
  }

  lemma OrdersSnoc(order: seq<string>, names: set<string>, n: string)
    requires Orders(order, names) && n !in names
    ensures Orders(order + [n], names + {n})
  {
  }

  // What one more catalogue row changes.
  lemma GroupedStep(parts: seq<IndexPart>, p: IndexPart, order: seq<string>, groups: map<string, Group>)
    requires Grouped(parts, order, groups)
    ensures forall n :: Listed(parts + [p], n) <==> (Listed(parts, n) || n == p.index)
    ensures forall n :: Dangerous(parts + [p], n) <==> (Dangerous(parts, n) || (n == p.index && Partial(p)))
    ensures forall n :: n != p.index ==> KeyColumns(parts + [p], n) == KeyColumns(parts, n)
    ensures KeyColumns(parts + [p], p.index) == Extended(KeyColumns(parts, p.index), p)
    ensures p.index !in groups ==> KeyColumns(parts, p.index) == [] && !Dangerous(parts, p.index)
  {
    var all := parts + [p];
    forall n ensures Listed(all, n) <==> (Listed(parts, n) || n == p.index) {
      if Listed(parts, n) {
        var i :| 0 <= i < |parts| && parts[i].index == n;
        assert all[i].index == n;
      }
      if n == p.index { assert all[|parts|].index == n; }
    }
    forall n ensures Dangerous(all, n) <==> (Dangerous(parts, n) || (n == p.index && Partial(p))) {
      if Dangerous(parts, n) {
        var i :| 0 <= i < |parts| && parts[i].index == n && Partial(parts[i]);
        assert all[i].index == n;
      }
      if n == p.index && Partial(p) { assert all[|parts|].index == n; }
    }
    assert all[..|all| - 1] == parts;
    if p.index !in groups {
      UnlistedHasNoColumns(parts, p.index);
      assert !Dangerous(parts, p.index);
    }
  }

  lemma {:induction false} UnlistedHasNoColumns(parts: seq<IndexPart>, name: string)
    requires !Listed(parts, name)
    ensures KeyColumns(parts, name) == []
  {
    if parts != [] {
      var before := parts[..|parts| - 1];
      assert forall i :: 0 <= i < |before| ==> before[i] == parts[i];
      UnlistedHasNoColumns(before, name);
    }
  }

  // ---- The key columns are those of the index, in its order ----

  // The catalogue rows of one index.
  function PartsOf(parts: seq<IndexPart>, name: string): seq<IndexPart>
  {
    if parts == [] then []
    else PartsOf(parts[..|parts| - 1], name) + (if parts[|parts| - 1].index == name then [parts[|parts| - 1]] else [])
  }

  predicate DistinctColumns(parts: seq<IndexPart>)
  {
    && (forall i :: 0 <= i < |parts| ==> parts[i].column.Some?)
    && (forall i, j :: 0 <= i < j < |parts| ==> parts[i].column != parts[j].column)
  }

  // An index on distinct columns, whatever other indexes are listed between its parts, has just these key columns, part
  // by part.
  lemma {:induction false} KeyColumnsAreParts(parts: seq<IndexPart>, name: string)
    requires DistinctColumns(PartsOf(parts, name))
    ensures var mine := PartsOf(parts, name);
      |KeyColumns(parts, name)| == |mine| && forall i :: 0 <= i < |mine| ==> mine[i].column == Some(KeyColumns(parts, name)[i])
    decreases |parts|
  {
    if parts != [] {
      var (before, p) := (parts[..|parts| - 1], parts[|parts| - 1]);
      var (mine, rest) := (PartsOf(parts, name), PartsOf(before, name));
      assert forall i :: 0 <= i < |rest| ==> mine[i] == rest[i];
      KeyColumnsAreParts(before, name);
      if p.index == name {
        assert mine[|rest|] == p;
        assert p.column.value !in KeyColumns(before, name);
      }
    }
  }

  // ---- The reported constraints hold ----

  // A unique index on arbitrary parts: part i of a row is valued by part(i, row), which for a plain column is its cell.
  ghost predicate PlainPart(cols: seq<QP.Column>, p: IndexPart, part: Row -> Value)
  {
    !Partial(p) ==> forall row :: part(row) == PlanSoundness.CellOf(PostgreSQL, cols, row, p.column.value)
  }

  ghost predicate IndexClash(parts: seq<IndexPart>, values: seq<Row -> Value>, name: string, a: Row, b: Row)
    requires |parts| == |values|
  {
    forall i :: 0 <= i < |parts| && parts[i].index == name ==> values[i](a) == values[i](b) && !values[i](a).Null?
  }

  ghost predicate IndexHolds(parts: seq<IndexPart>, values: seq<Row -> Value>, name: string, rows: seq<Row>)
    requires |parts| == |values|
  {
    forall i, j :: 0 <= i < j < |rows| ==> !IndexClash(parts, values, name, rows[i], rows[j])
  }

  lemma {:induction false} PartInKeyColumns(parts: seq<IndexPart>, name: string, i: nat)
    requires i < |parts| && parts[i].index == name && parts[i].column.Some?
    ensures parts[i].column.value in KeyColumns(parts, name)
    decreases |parts|
  {
    if i < |parts| - 1 {
      PartInKeyColumns(parts[..|parts| - 1], name, i);
    }
  }

  // A reported constraint is a unique key of every table whose physical indexes hold.
  lemma ReportedConstraintHolds(parts: seq<IndexPart>,
      values: seq<Row -> Value>, cols: seq<QP.Column>, name: string, rows: seq<Row>)
    requires |parts| == |values| && forall i :: 0 <= i < |parts| ==> PlainPart(cols, parts[i], values[i])
    requires !Dangerous(parts, name) && IndexHolds(parts, values, name, rows)
    ensures PlanSoundness.HasKey(cols, rows, KeyColumns(parts, name))
  {
    hide PlanSoundness.CellOf, KeyColumns;
    var key := KeyColumns(parts, name);
    forall i, j | 0 <= i < j < |rows| ensures !PlanSoundness.Clash(cols, rows[i], rows[j], key) {
      var (a, b) := (rows[i], rows[j]);
      if PlanSoundness.Clash(cols, a, b, key) {
        forall k | 0 <= k < |parts| && parts[k].index == name ensures values[k](a) == values[k](b) && !values[k](a).Null? {
          assert !Partial(parts[k]);
          PartInKeyColumns(parts, name, k);
          var at :| 0 <= at < |key| && key[at] == parts[k].column.value;
          assert values[k](a) == PlanSoundness.CellOf(PostgreSQL, cols, a, key[at]);
        }
      }
    }
  }

  // What ScanMySQLUniquePairs ensures of every constraint it reports.
  ghost predicate Reported(parts: seq<IndexPart>, uniques: seq<QP.UniqueConstraint>)
  {
    forall u :: 0 <= u < |uniques| ==>
      Listed(parts, uniques[u].name) && !Dangerous(parts, uniques[u].name)
      && uniques[u].columns == KeyColumns(parts, uniques[u].name)
  }

  // The table as the engine keeps it: every index on whatever parts, the primary key, and the columns that are NOT NULL.
  ghost predicate Kept(parts: seq<IndexPart>, values: seq<Row -> Value>, m: QP.TableMetadata, rows: seq<Row>)
    requires |parts| == |values|
  {
    && (forall i :: 0 <= i < |parts| ==> PlainPart(m.columns, parts[i], values[i]))
    && (forall i :: 0 <= i < |parts| ==> IndexHolds(parts, values, parts[i].index, rows))
    && (m.primaryKey.Some? ==> PlanSoundness.HasKey(m.columns, rows, m.primaryKey.value))
    && (forall i :: 0 <= i < |rows| ==> PlanSoundness.ObeysNullability(m.columns, rows[i]))
  }

  // From the catalogue to the plan: metadata assembled from the reported constraints is obeyed by every table that the
  // engine keeps, so that no two of its rows tie on the sort tuple of an accepted plan.
  lemma CatalogueSupportsPlans(parts: seq<IndexPart>, values: seq<Row -> Value>, s: QP.Snapshot, shape: QP.QueryShape,
      keys: seq<QP.SortKey>, p: QP.VerifiedSortPlan, rows: seq<Row>)
    requires |parts| == |values| && Reported(parts, s.meta.uniques) && Kept(parts, values, s.meta, rows)
    requires QP.ProvedPlan(s, shape, keys, p) && PlanSoundness.CaseDistinct(s.dialect, s.meta.columns)
    ensures PlanSoundness.Obeys(s.meta, rows)
    ensures forall i, j :: 0 <= i < j < |rows| ==> !PlanSoundness.Tie(s.dialect, s.meta.columns, p.specs, rows[i], rows[j])
  {
    hide PlanSoundness.CellOf, KeyColumns, PlanSoundness.HasKey, QP.ProvedPlan, PlanSoundness.Tie, IndexHolds, PlainPart;
    var m := s.meta;
    forall u | 0 <= u < |m.uniques| ensures PlanSoundness.HasKey(m.columns, rows, m.uniques[u].columns) {
      var name := m.uniques[u].name;
      assert Listed(parts, name);
      var i :| 0 <= i < |parts| && parts[i].index == name;
      ReportedConstraintHolds(parts, values, m.columns, name, rows);
    }
    forall i, j | 0 <= i < j < |rows| ensures !PlanSoundness.Tie(s.dialect, m.columns, p.specs, rows[i], rows[j]) {
      PlanSoundness.AcceptedPlanIsKey(s, shape, keys, p, rows, i, j);
    }
  }
}
