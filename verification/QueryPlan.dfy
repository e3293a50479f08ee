/** apps/api/internal/queryplan: which sort keys are proved to be a key of the queried table. */
module QueryPlan {
  import opened Prelude
  import opened Sql

  datatype Column = Column(name: string, ordinal: int, nullable: bool)

  datatype UniqueConstraint = UniqueConstraint(name: string, columns: seq<string>)

  datatype TableMetadata = TableMetadata(schema: string, table: string, columns: seq<Column>,
                                         primaryKey: Option<seq<string>>, uniques: seq<UniqueConstraint>)

  datatype Snapshot = Snapshot(connectionID: string, dialect: Engine, poolGeneration: int,
                               schemaGeneration: string, meta: TableMetadata)

  // columns maps an exposed name to its base column, or to "" for a computed column.
  datatype QueryShape = QueryShape(baseSchema: string, baseTable: string, selectStar: bool, columns: map<string, string>)

  datatype Direction = Asc | Desc | OtherDirection(text: string)

  datatype SortKey = SortKey(column: string, direction: Direction, nullsLast: bool)

  datatype SortSpec = SortSpec(column: string, baseColumn: string, asc: bool, nullsLast: bool)

  datatype Binding = Binding(connectionID: string, dialect: Engine, poolGeneration: int, schemaGeneration: string)

  datatype VerifiedSortPlan = VerifiedSortPlan(specs: seq<SortSpec>, binding: Binding)

  datatype Refusal =
    | NoSnapshot | BadSnapshot | NoShape | BadShape | OtherTable | NoSortKeys
    | BadSortColumn | BadDirection | DuplicateColumn | NotExposed | Computed | NotABaseColumn
    | NoUniqueKey | NotCovered

  // ---- Validation ----

  predicate ColumnNamed(cols: seq<Column>, name: string)
  {
    exists i :: 0 <= i < |cols| && cols[i].name == name
  }

  predicate KeyColumnsKnown(cols: seq<Column>, key: seq<string>)
  {
    key != [] && forall i :: 0 <= i < |key| ==> ColumnNamed(cols, key[i])
  }

  predicate ValidMetadata(m: TableMetadata)
  {
    && ValidIdent(m.schema) && ValidIdent(m.table) && m.columns != []
    && (forall i :: 0 <= i < |m.columns| ==> ValidIdent(m.columns[i].name) && m.columns[i].ordinal >= 1)
    && (forall i, j :: 0 <= i < j < |m.columns| ==> m.columns[i].name != m.columns[j].name)
    && (m.primaryKey.Some? ==> KeyColumnsKnown(m.columns, m.primaryKey.value))
    && (forall i :: 0 <= i < |m.uniques| ==> m.uniques[i].name != "" && KeyColumnsKnown(m.columns, m.uniques[i].columns))
  }

  method KeyColumnsIn(names: set<string>, cols: seq<Column>, key: seq<string>) returns (ok: bool)
    requires forall n :: n in names <==> ColumnNamed(cols, n)
    ensures ok == KeyColumnsKnown(cols, key)
  {
    if |key| == 0 {
      return false;
    }
    for i := 0 to |key|
      invariant forall j :: 0 <= j < i ==> ColumnNamed(cols, key[j])
    {
      if key[i] !in names {
        return false;
      }
    }
    return true;
  }

  method ValidateMetadata(m: TableMetadata) returns (ok: bool)
    ensures ok == ValidMetadata(m)
  {
    if !ValidIdent(m.schema) || !ValidIdent(m.table) || |m.columns| == 0 {
      return false;
    }
    var names: set<string> := {};
    for i := 0 to |m.columns|
      invariant forall n :: n in names <==> exists j :: 0 <= j < i && m.columns[j].name == n
      invariant forall j :: 0 <= j < i ==> ValidIdent(m.columns[j].name) && m.columns[j].ordinal >= 1
      invariant forall j, k :: 0 <= j < k < i ==> m.columns[j].name != m.columns[k].name
    {
      var c := m.columns[i];
      if !ValidIdent(c.name) || c.ordinal < 1 || c.name in names {
        return false;
      }
      names := names + {c.name};
    }
    if m.primaryKey.Some? {
      var known := KeyColumnsIn(names, m.columns, m.primaryKey.value);
      if !known {
        return false;
      }
    }
    for i := 0 to |m.uniques|
      invariant forall j :: 0 <= j < i ==> m.uniques[j].name != "" && KeyColumnsKnown(m.columns, m.uniques[j].columns)
    {
      if m.uniques[i].name == "" {
        return false;
      }
      var known := KeyColumnsIn(names, m.columns, m.uniques[i].columns);
      if !known {
        return false;
      }
    }
    return true;
  }

  predicate ValidSnapshot(s: Snapshot)
  {
    s.connectionID != "" && s.poolGeneration >= 0 && s.schemaGeneration != "" && ValidMetadata(s.meta)
  }

  predicate ValidShape(s: QueryShape)
  {
    && (s.baseSchema != "" ==> ValidIdent(s.baseSchema)) && ValidIdent(s.baseTable)
    && (s.selectStar
        || (|s.columns| > 0
            && forall e :: e in s.columns ==> ValidIdent(e) && (s.columns[e] != "" ==> ValidIdent(s.columns[e]))))
  }

  // ---- Unique keys ----

  // The column that a name denotes in a dialect: the first that matches.
  predicate NotNull(dialect: Engine, cols: seq<Column>, name: string)
  {
    cols != [] && if SameIdent(dialect, cols[0].name, name) then !cols[0].nullable else NotNull(dialect, cols[1..], name)
  }

  predicate AllNotNull(dialect: Engine, cols: seq<Column>, key: seq<string>)
  {
    forall i :: 0 <= i < |key| ==> NotNull(dialect, cols, key[i])
  }

  // A key in the sense of the proof: the primary key, or a unique constraint, with all columns NOT NULL.
  predicate UniqueKey(dialect: Engine, m: TableMetadata, key: seq<string>)
  {
    && AllNotNull(dialect, m.columns, key)
    && (m.primaryKey == Some(key) || exists i :: 0 <= i < |m.uniques| && m.uniques[i].columns == key)
  }

  method IsNotNullColumn(dialect: Engine, cols: seq<Column>, name: string) returns (ok: bool)
    ensures ok == NotNull(dialect, cols, name)
  {
    for i := 0 to |cols|
      invariant NotNull(dialect, cols, name) == NotNull(dialect, cols[i..], name)
    {
      if SameIdent(dialect, cols[i].name, name) {
        return !cols[i].nullable;
      }
    }
    return false;
  }

  method ConstraintColumnsNotNull(dialect: Engine, cols: seq<Column>, key: seq<string>) returns (ok: bool)
    ensures ok == AllNotNull(dialect, cols, key)
  {
    for i := 0 to |key|
      invariant forall j :: 0 <= j < i ==> NotNull(dialect, cols, key[j])
    {
      var notNull := IsNotNullColumn(dialect, cols, key[i]);
      if !notNull {
        return false;
      }
    }
    return true;
  }

  method FindUniqueProofs(dialect: Engine, m: TableMetadata) returns (out: seq<seq<string>>)
    ensures forall key :: key in out <==> UniqueKey(dialect, m, key)
  {
    out := [];
    if m.primaryKey.Some? {
      var ok := ConstraintColumnsNotNull(dialect, m.columns, m.primaryKey.value);
      if ok {
        out := out + [m.primaryKey.value];
      }
    }
    ghost var primary := out;
    for i := 0 to |m.uniques|
      invariant forall key :: key in out <==>
        (key in primary || (AllNotNull(dialect, m.columns, key) && exists j :: 0 <= j < i && m.uniques[j].columns == key))
    {
      var ok := ConstraintColumnsNotNull(dialect, m.columns, m.uniques[i].columns);
      if ok {
        out := out + [m.uniques[i].columns];
      }
    }
  }

  // ---- VerifySortPlan ----

  // The base column behind a sort key: None when the query does not expose it.
  function BaseOf(shape: QueryShape, column: string): Option<string>
  {
    if shape.selectStar then Some(column)
    else if column in shape.columns then Some(shape.columns[column])
    else None
  }

  predicate BaseColumn(dialect: Engine, cols: seq<Column>, name: string)
  {
    exists i :: 0 <= i < |cols| && SameIdent(dialect, cols[i].name, name)
  }

  // A sort key that can be traced to a column of the base table.
  predicate Traceable(s: Snapshot, shape: QueryShape, k: SortKey)
  {
    && ValidIdent(k.column) && !k.direction.OtherDirection?
    && BaseOf(shape, k.column).Some? && BaseOf(shape, k.column).value != ""
    && BaseColumn(s.dialect, s.meta.columns, BaseOf(shape, k.column).value)
  }

  // Everything about the request is in order, apart from the question of uniqueness.
  predicate WellFormed(s: Snapshot, shape: QueryShape, keys: seq<SortKey>)
  {
    && ValidSnapshot(s) && ValidShape(shape)
    && shape.baseSchema == s.meta.schema && shape.baseTable == s.meta.table
    && keys != []
    && (forall i :: 0 <= i < |keys| ==> Traceable(s, shape, keys[i]))
    && (forall i, j :: 0 <= i < j < |keys| ==> keys[i].column != keys[j].column)
  }

  function SpecOf(shape: QueryShape, k: SortKey): SortSpec
    requires BaseOf(shape, k.column).Some?
  {
    SortSpec(k.column, BaseOf(shape, k.column).value, !k.direction.Desc?, k.nullsLast)
  }

  predicate SortsBy(dialect: Engine, specs: seq<SortSpec>, name: string)
  {
    exists j :: 0 <= j < |specs| && SameIdent(dialect, specs[j].baseColumn, name)
  }

  predicate Covers(dialect: Engine, specs: seq<SortSpec>, key: seq<string>)
  {
    forall i :: 0 <= i < |key| ==> SortsBy(dialect, specs, key[i])
  }

  method ColumnExists(dialect: Engine, cols: seq<Column>, name: string) returns (ok: bool)
    ensures ok == BaseColumn(dialect, cols, name)
  {
    for i := 0 to |cols|
      invariant forall j :: 0 <= j < i ==> !SameIdent(dialect, cols[j].name, name)
    {
      if SameIdent(dialect, cols[i].name, name) {
        return true;
      }
    }
    return false;
  }

  method SortColumnsCoverProof(dialect: Engine, specs: seq<SortSpec>, key: seq<string>) returns (ok: bool)
    ensures ok == Covers(dialect, specs, key)
  {
    for i := 0 to |key|
      invariant forall k :: 0 <= k < i ==> SortsBy(dialect, specs, key[k])
    {
      var found := false;
      for j := 0 to |specs|
        invariant !found && forall k :: 0 <= k < j ==> !SameIdent(dialect, specs[k].baseColumn, key[i])
      {
        if SameIdent(dialect, specs[j].baseColumn, key[i]) {
          found := true;
          break;
        }
      }
      if !found {
        return false;
      }
    }
    return true;
  }

  // The sort keys as specs, or the first objection to them.
  method TraceSortKeys(s: Snapshot, shape: QueryShape, keys: seq<SortKey>) returns (r: Result<seq<SortSpec>, Refusal>)
    ensures r.Ok? <==> (forall i :: 0 <= i < |keys| ==> Traceable(s, shape, keys[i]))
                       && (forall i, j :: 0 <= i < j < |keys| ==> keys[i].column != keys[j].column)
    ensures r.Ok? ==> |r.value| == |keys|
    ensures r.Ok? ==> forall i :: 0 <= i < |keys| ==> BaseOf(shape, keys[i].column).Some? && r.value[i] == SpecOf(shape, keys[i])
    ensures r.Ok? ==> forall i :: 0 <= i < |keys| ==> Follows(shape, keys[i], r.value[i])
  {
    var specs := [];
    var seen: set<string> := {};
    for i := 0 to |keys|
      invariant |specs| == i
      invariant forall n :: n in seen <==> exists j :: 0 <= j < i && keys[j].column == n
      invariant forall j :: 0 <= j < i ==> Traceable(s, shape, keys[j]) && specs[j] == SpecOf(shape, keys[j])
      invariant forall j, k :: 0 <= j < k < i ==> keys[j].column != keys[k].column
    {
      var k := keys[i];
      if !ValidIdent(k.column) {
        return Err(BadSortColumn);
      }
      if k.direction.OtherDirection? {
        return Err(BadDirection);
      }
      if k.column in seen {
        return Err(DuplicateColumn);
      }
      seen := seen + {k.column};
      var base := BaseOf(shape, k.column);
      if base.None? {
        return Err(NotExposed);
      }
      if base.value == "" {
        return Err(Computed);
      }
      var known := ColumnExists(s.dialect, s.meta.columns, base.value);
      if !known {
        return Err(NotABaseColumn);
      }
      specs := specs + [SortSpec(k.column, base.value, !k.direction.Desc?, k.nullsLast)];
    }
    return Ok(specs);
  }

  // A specification says of its sort key what was asked: the column, its direction and where its nulls stand, and the
  // base column that the query exposes under the name.
  predicate Follows(shape: QueryShape, k: SortKey, spec: SortSpec)
  {
    && spec.column == k.column && (spec.asc <==> k.direction == Asc) && (!spec.asc <==> k.direction == Desc)
    && spec.nullsLast == k.nullsLast
    && if shape.selectStar then spec.baseColumn == k.column
       else k.column in shape.columns && spec.baseColumn == shape.columns[k.column]
  }

  // A plan for a request: its specs, bound to the snapshot, cover a unique key of the table.
  ghost predicate ProvedPlan(s: Snapshot, shape: QueryShape, keys: seq<SortKey>, p: VerifiedSortPlan)
  {
    && WellFormed(s, shape, keys) && p.specs == SpecsOf(shape, keys)
    && (exists key :: UniqueKey(s.dialect, s.meta, key) && Covers(s.dialect, p.specs, key))
    && p.binding == Binding(s.connectionID, s.dialect, s.poolGeneration, s.schemaGeneration)
  }

  function SpecsOf(shape: QueryShape, keys: seq<SortKey>): seq<SortSpec>
    requires forall i :: 0 <= i < |keys| ==> BaseOf(shape, keys[i].column).Some?
  {
    seq(|keys|, i requires 0 <= i < |keys| => SpecOf(shape, keys[i]))
  }

  // Accepts exactly the well-formed requests whose sort columns cover some unique key.
  method VerifySortPlan(snapshot: Option<Snapshot>, shape: Option<QueryShape>, keys: seq<SortKey>)
    returns (r: Result<VerifiedSortPlan, Refusal>)
    ensures r.Ok? ==> snapshot.Some? && shape.Some?
    ensures r.Ok? ==> ProvedPlan(snapshot.value, shape.value, keys, r.value)
    ensures r.Ok? ==> shape.value.baseSchema == snapshot.value.meta.schema && shape.value.baseTable == snapshot.value.meta.table
    ensures r.Ok? && !shape.value.selectStar ==> shape.value.columns != map[] && forall e :: e in shape.value.columns ==>
      ValidIdent(e) && (shape.value.columns[e] == "" || ValidIdent(shape.value.columns[e]))
    ensures r.Ok? ==> keys != [] && forall i, j :: 0 <= i < j < |keys| ==> keys[i].column != keys[j].column
    ensures r.Ok? ==> r.value.binding.connectionID == snapshot.value.connectionID != "" && r.value.binding.dialect == snapshot.value.dialect
    ensures r.Ok? ==> r.value.binding.poolGeneration == snapshot.value.poolGeneration
    ensures r.Ok? ==> r.value.binding.schemaGeneration == snapshot.value.schemaGeneration != ""
    ensures r.Ok? ==> forall i :: 0 <= i < |r.value.specs| ==>
      ValidIdent(r.value.specs[i].column) && ValidIdent(r.value.specs[i].baseColumn)
    ensures r.Ok? ==> |r.value.specs| == |keys| && forall i :: 0 <= i < |keys| ==> Follows(shape.value, keys[i], r.value.specs[i])
    ensures snapshot.Some? && shape.Some? && WellFormed(snapshot.value, shape.value, keys) && r.Err? ==>
      forall key :: UniqueKey(snapshot.value.dialect, snapshot.value.meta, key) ==>
        !Covers(snapshot.value.dialect, SpecsOf(shape.value, keys), key)
  {
    if snapshot.None? {
      return Err(NoSnapshot);
    }
    var s := snapshot.value;
    var metaOk := ValidateMetadata(s.meta);
    if s.connectionID == "" || s.poolGeneration < 0 || s.schemaGeneration == "" || !metaOk {
      return Err(BadSnapshot);
    }
    if shape.None? {
      return Err(NoShape);
    }
    if !ValidShape(shape.value) {
      return Err(BadShape);
    }
    if shape.value.baseSchema != s.meta.schema || shape.value.baseTable != s.meta.table {
      return Err(OtherTable);
    }
    if |keys| == 0 {
      return Err(NoSortKeys);
    }
    var traced := TraceSortKeys(s, shape.value, keys);
    if traced.Err? {
      return Err(traced.error);
    }
    var specs := traced.value;
    assert specs == SpecsOf(shape.value, keys);
    var proofs := FindUniqueProofs(s.dialect, s.meta);
    if |proofs| == 0 {
      return Err(NoUniqueKey);
    }
    var covered := false;
    for i := 0 to |proofs|
      invariant !covered ==> forall j :: 0 <= j < i ==> !Covers(s.dialect, specs, proofs[j])
      invariant covered ==> exists key :: UniqueKey(s.dialect, s.meta, key) && Covers(s.dialect, specs, key)
    {
      covered := SortColumnsCoverProof(s.dialect, specs, proofs[i]);
      if covered {
        assert proofs[i] in proofs;
        break;
      }
    }
    if !covered {
      return Err(NotCovered);
    }
    return Ok(VerifiedSortPlan(specs, Binding(s.connectionID, s.dialect, s.poolGeneration, s.schemaGeneration)));
  }
}
