/** What a verified sort plan guarantees: the sort tuple is a key of every table that obeys the metadata,
    so paging by it is exact. And nothing weaker than the plan's condition would do. */
module PlanSoundness {
  import opened Prelude
  import opened Sql
  import QP = QueryPlan
  import Keyset
  import Paging
  import PagingRuns
  import PagingProgress

  // ---- Tables that obey their metadata ----

  // The cell of the column that a name denotes; rows are aligned with the columns of the metadata.
  function CellOf(dialect: Engine, cols: seq<QP.Column>, row: Row, name: string): Value
  {
    if cols == [] || row == [] then Null
    else if SameIdent(dialect, cols[0].name, name) then row[0]
    else CellOf(dialect, cols[1..], row[1..], name)
  }

  // SQL uniqueness: two rows clash only when all columns of the key are equal and none is NULL.
  ghost predicate Clash(cols: seq<QP.Column>, a: Row, b: Row, key: seq<string>)
  {
    forall k :: 0 <= k < |key| ==>
      CellOf(PostgreSQL, cols, a, key[k]) == CellOf(PostgreSQL, cols, b, key[k]) && !CellOf(PostgreSQL, cols, a, key[k]).Null?
  }

  ghost predicate HasKey(cols: seq<QP.Column>, rows: seq<Row>, key: seq<string>)
  {
    forall i, j :: 0 <= i < j < |rows| ==> !Clash(cols, rows[i], rows[j], key)
  }

  ghost predicate ObeysNullability(cols: seq<QP.Column>, row: Row)
  {
    |row| == |cols| && forall k :: 0 <= k < |cols| ==> (cols[k].nullable || !row[k].Null?)
  }

  ghost predicate Obeys(m: QP.TableMetadata, rows: seq<Row>)
  {
    && (forall i :: 0 <= i < |rows| ==> ObeysNullability(m.columns, rows[i]))
    && (m.primaryKey.Some? ==> HasKey(m.columns, rows, m.primaryKey.value))
    && (forall u :: 0 <= u < |m.uniques| ==> HasKey(m.columns, rows, m.uniques[u].columns))
  }

  // MySQL does not let two columns of a table differ in letter case only.
  ghost predicate CaseDistinct(dialect: Engine, cols: seq<QP.Column>)
  {
    forall i, j :: 0 <= i < j < |cols| ==> !SameIdent(dialect, cols[i].name, cols[j].name)
  }

  ghost predicate Tie(dialect: Engine, cols: seq<QP.Column>, specs: seq<QP.SortSpec>, a: Row, b: Row)
  {
    forall k :: 0 <= k < |specs| ==>
      CellOf(dialect, cols, a, specs[k].baseColumn) == CellOf(dialect, cols, b, specs[k].baseColumn)
  }

  // ---- Looking names up ----

  lemma {:induction false} CellAt(dialect: Engine, cols: seq<QP.Column>, row: Row, k: nat, name: string)
    requires k < |cols| == |row| && CaseDistinct(dialect, cols) && SameIdent(dialect, cols[k].name, name)
    ensures CellOf(dialect, cols, row, name) == row[k]
    ensures QP.NotNull(dialect, cols, name) == !cols[k].nullable
  {
    hide Fold;
    if k > 0 {
      assert !SameIdent(dialect, cols[0].name, cols[k].name);
      CellAt(dialect, cols[1..], row[1..], k - 1, name);
    }
  }

  lemma CaseDistinctExact(dialect: Engine, cols: seq<QP.Column>)
    requires CaseDistinct(dialect, cols)
    ensures CaseDistinct(PostgreSQL, cols)
  {
  }

  // ---- Soundness ----

  // Rows that tie on sort columns covering a NOT NULL key clash on the key.
  lemma CoveredTieClashes(dialect: Engine, m: QP.TableMetadata, specs: seq<QP.SortSpec>, key: seq<string>, a: Row, b: Row)
    requires CaseDistinct(dialect, m.columns)
    requires ObeysNullability(m.columns, a) && ObeysNullability(m.columns, b)
    requires QP.KeyColumnsKnown(m.columns, key) && QP.AllNotNull(dialect, m.columns, key)
    requires QP.Covers(dialect, specs, key) && Tie(dialect, m.columns, specs, a, b)
    ensures Clash(m.columns, a, b, key)
  {
    CaseDistinctExact(dialect, m.columns);
    hide Fold;
    forall k | 0 <= k < |key|
      ensures CellOf(PostgreSQL, m.columns, a, key[k]) == CellOf(PostgreSQL, m.columns, b, key[k])
      ensures !CellOf(PostgreSQL, m.columns, a, key[k]).Null?
    {
      assert QP.ColumnNamed(m.columns, key[k]) && QP.SortsBy(dialect, specs, key[k]) && QP.NotNull(dialect, m.columns, key[k]);
      var i :| 0 <= i < |m.columns| && m.columns[i].name == key[k];
      var j :| 0 <= j < |specs| && SameIdent(dialect, specs[j].baseColumn, key[k]);
      CellAt(PostgreSQL, m.columns, a, i, key[k]);
      CellAt(PostgreSQL, m.columns, b, i, key[k]);
      CellAt(dialect, m.columns, a, i, key[k]);
      CellAt(dialect, m.columns, a, i, specs[j].baseColumn);
      CellAt(dialect, m.columns, b, i, specs[j].baseColumn);
    }
  }

  // In a table that obeys the metadata of an accepted plan no two rows tie on the sort tuple.
  lemma AcceptedPlanIsKey(s: QP.Snapshot, shape: QP.QueryShape, keys: seq<QP.SortKey>, p: QP.VerifiedSortPlan,
      rows: seq<Row>, i: nat, j: nat)
    requires QP.ProvedPlan(s, shape, keys, p) && CaseDistinct(s.dialect, s.meta.columns)
    requires Obeys(s.meta, rows) && i < j < |rows|
    ensures !Tie(s.dialect, s.meta.columns, p.specs, rows[i], rows[j])
  {
    hide Fold, CellOf;
    if Tie(s.dialect, s.meta.columns, p.specs, rows[i], rows[j]) {
      var key :| QP.UniqueKey(s.dialect, s.meta, key) && QP.Covers(s.dialect, p.specs, key);
      CoveredTieClashes(s.dialect, s.meta, p.specs, key, rows[i], rows[j]);
    }
  }

  // ---- Completeness ----

  // Two rows that agree exactly on the sort columns, with NULL there wherever it is allowed.
  function Witness(dialect: Engine, cols: seq<QP.Column>, specs: seq<QP.SortSpec>, mark: int): Row
  {
    seq(|cols|, k requires 0 <= k < |cols| =>
      if !QP.SortsBy(dialect, specs, cols[k].name) then Val(mark)
      else if cols[k].nullable then Null else Val(0))
  }

  lemma WitnessesDoNotClash(dialect: Engine, m: QP.TableMetadata, specs: seq<QP.SortSpec>, key: seq<string>)
    requires CaseDistinct(dialect, m.columns) && QP.KeyColumnsKnown(m.columns, key)
    requires !(QP.AllNotNull(dialect, m.columns, key) && QP.Covers(dialect, specs, key))
    ensures !Clash(m.columns, Witness(dialect, m.columns, specs, 1), Witness(dialect, m.columns, specs, 2), key)
  {
    CaseDistinctExact(dialect, m.columns);
    hide Fold;
    var (a, b) := (Witness(dialect, m.columns, specs, 1), Witness(dialect, m.columns, specs, 2));
    var k :| 0 <= k < |key| && !(QP.NotNull(dialect, m.columns, key[k]) && QP.SortsBy(dialect, specs, key[k]));
    assert QP.ColumnNamed(m.columns, key[k]);
    var i :| 0 <= i < |m.columns| && m.columns[i].name == key[k];
    CellAt(PostgreSQL, m.columns, a, i, key[k]);
    CellAt(PostgreSQL, m.columns, b, i, key[k]);
    CellAt(dialect, m.columns, a, i, key[k]);
  }

  lemma WitnessesTie(dialect: Engine, cols: seq<QP.Column>, specs: seq<QP.SortSpec>)
    requires CaseDistinct(dialect, cols)
    requires forall k :: 0 <= k < |specs| ==> QP.BaseColumn(dialect, cols, specs[k].baseColumn)
    ensures Tie(dialect, cols, specs, Witness(dialect, cols, specs, 1), Witness(dialect, cols, specs, 2))
  {
    hide Fold;
    var (a, b) := (Witness(dialect, cols, specs, 1), Witness(dialect, cols, specs, 2));
    forall k | 0 <= k < |specs|
      ensures CellOf(dialect, cols, a, specs[k].baseColumn) == CellOf(dialect, cols, b, specs[k].baseColumn)
    {
      var i :| 0 <= i < |cols| && SameIdent(dialect, cols[i].name, specs[k].baseColumn);
      CellAt(dialect, cols, a, i, specs[k].baseColumn);
      CellAt(dialect, cols, b, i, specs[k].baseColumn);
      assert SameIdent(dialect, specs[k].baseColumn, cols[i].name);
    }
  }

  // A well-formed request is accepted if and only if its sort tuple is a key of every table that obeys the metadata.
  lemma PlanIffKey(s: QP.Snapshot, shape: QP.QueryShape, keys: seq<QP.SortKey>)
    requires QP.WellFormed(s, shape, keys) && CaseDistinct(s.dialect, s.meta.columns)
    ensures var specs := QP.SpecsOf(shape, keys);
      (exists key :: QP.UniqueKey(s.dialect, s.meta, key) && QP.Covers(s.dialect, specs, key))
      <==> (forall a, b :: Obeys(s.meta, [a, b]) ==> !Tie(s.dialect, s.meta.columns, specs, a, b))
  {
    var (m, specs) := (s.meta, QP.SpecsOf(shape, keys));
    if exists key :: QP.UniqueKey(s.dialect, m, key) && QP.Covers(s.dialect, specs, key) {
      var p := QP.VerifiedSortPlan(specs, QP.Binding(s.connectionID, s.dialect, s.poolGeneration, s.schemaGeneration));
      forall a, b | Obeys(m, [a, b]) ensures !Tie(s.dialect, m.columns, specs, a, b) {
        AcceptedPlanIsKey(s, shape, keys, p, [a, b], 0, 1);
      }
    } else {
      var (a, b) := (Witness(s.dialect, m.columns, specs, 1), Witness(s.dialect, m.columns, specs, 2));
      WitnessesTie(s.dialect, m.columns, specs);
      WitnessesObey(s.dialect, m, specs);
    }
  }

  lemma WitnessesObey(dialect: Engine, m: QP.TableMetadata, specs: seq<QP.SortSpec>)
    requires QP.ValidMetadata(m) && CaseDistinct(dialect, m.columns)
    requires !exists key :: QP.UniqueKey(dialect, m, key) && QP.Covers(dialect, specs, key)
    ensures Obeys(m, [Witness(dialect, m.columns, specs, 1), Witness(dialect, m.columns, specs, 2)])
  {
    hide Fold, CellOf, QP.NotNull;
    if m.primaryKey.Some? {
      WitnessesDoNotClash(dialect, m, specs, m.primaryKey.value);
    }
    forall u | 0 <= u < |m.uniques|
      ensures HasKey(m.columns, [Witness(dialect, m.columns, specs, 1), Witness(dialect, m.columns, specs, 2)], m.uniques[u].columns)
    {
      WitnessesDoNotClash(dialect, m, specs, m.uniques[u].columns);
    }
  }

  // ---- From plan to pages ----

  function ForAdapter(specs: seq<QP.SortSpec>): (r: seq<Keyset.SortSpec>)
    ensures |r| == |specs|
    ensures forall i :: 0 <= i < |specs| ==> r[i] == Keyset.SortSpec(specs[i].column, specs[i].asc, specs[i].nullsLast)
  {
    seq(|specs|, i requires 0 <= i < |specs| => Keyset.SortSpec(specs[i].column, specs[i].asc, specs[i].nullsLast))
  }

  // The result of a query of the accepted shape: each result row shows a different row of the base table,
  // with the base column's cell under every exposed sort column.
  ghost predicate Shows(dialect: Engine, m: QP.TableMetadata, specs: seq<QP.SortSpec>, base: seq<Row>,
      cols: Header, results: seq<Row>, source: seq<nat>)
  {
    && |source| == |results|
    && (forall i :: 0 <= i < |source| ==> source[i] < |base|)
    && (forall i, j :: 0 <= i < j < |source| ==> source[i] != source[j])
    && forall i, k :: 0 <= i < |results| && 0 <= k < |specs| ==>
         Field(cols, results[i], specs[k].column) == CellOf(dialect, m.columns, base[source[i]], specs[k].baseColumn)
  }

  lemma {:induction false} NoDifferenceNoDifferentField(specs: seq<Keyset.SortSpec>, i: nat, cols: Header, a: Row,
      b: Row)
    requires Keyset.CompareFrom(specs, i, cols, a, b) == 0
    ensures forall k :: i <= k < |specs| ==> Field(cols, a, specs[k].column) == Field(cols, b, specs[k].column)
    decreases |specs| - i
  {
    if i < |specs| { NoDifferenceNoDifferentField(specs, i + 1, cols, a, b); }
  }

  lemma ShownRowsDiffer(s: QP.Snapshot, shape: QP.QueryShape, keys: seq<QP.SortKey>, p: QP.VerifiedSortPlan, base: seq<Row>,
      cols: Header, results: seq<Row>, source: seq<nat>, i: nat, j: nat)
    requires QP.ProvedPlan(s, shape, keys, p) && CaseDistinct(s.dialect, s.meta.columns) && Obeys(s.meta, base)
    requires Shows(s.dialect, s.meta, p.specs, base, cols, results, source) && i < |results| && j < |results| && i != j
    ensures Keyset.CompareRows(ForAdapter(p.specs), cols, results[i], results[j]) != 0
  {
    hide QP.ProvedPlan, Obeys, CaseDistinct, CellOf;
    var specs := ForAdapter(p.specs);
    if Keyset.CompareRows(specs, cols, results[i], results[j]) == 0 {
      NoDifferenceNoDifferentField(specs, 0, cols, results[i], results[j]);
      forall k | 0 <= k < |specs|
        ensures CellOf(s.dialect, s.meta.columns, base[source[i]], p.specs[k].baseColumn)
             == CellOf(s.dialect, s.meta.columns, base[source[j]], p.specs[k].baseColumn)
      {
        assert specs[k].column == p.specs[k].column;
      }
      var (x, y) := if source[i] < source[j] then (source[i], source[j]) else (source[j], source[i]);
      AcceptedPlanIsKey(s, shape, keys, p, base, x, y);
    }
  }

  lemma {:induction false} DistinctRowsOnce(s: seq<Row>, r: Row)
    requires forall i, j :: 0 <= i < j < |s| ==> s[i] != s[j]
    ensures multiset(s)[r] <= 1
  {
    if s != [] {
      DistinctRowsOnce(s[1..], r);
      assert s == [s[0]] + s[1..];
      assert forall k :: 0 <= k < |s[1..]| ==> s[1..][k] == s[k + 1] != s[0];
    }
  }

  lemma ShownResultIsKeyed(s: QP.Snapshot, shape: QP.QueryShape, keys: seq<QP.SortKey>, p: QP.VerifiedSortPlan,
      base: seq<Row>,
      cols: Header, results: seq<Row>, source: seq<nat>)
    requires QP.ProvedPlan(s, shape, keys, p) && CaseDistinct(s.dialect, s.meta.columns) && Obeys(s.meta, base)
    requires Shows(s.dialect, s.meta, p.specs, base, cols, results, source)
    ensures PagingRuns.IsKey(ForAdapter(p.specs), cols, multiset(results))
  {
    hide QP.ProvedPlan, Obeys, CaseDistinct, Shows, Keyset.CompareFrom;
    var specs := ForAdapter(p.specs);
    forall i, j | 0 <= i < j < |results| ensures results[i] != results[j] {
      ShownRowsDiffer(s, shape, keys, p, base, cols, results, source, i, j);
      Keyset.CompareAntisymmetric(specs, 0, cols, results[i], results[i]);
    }
    forall r ensures multiset(results)[r] <= 1 {
      DistinctRowsOnce(results, r);
    }
    forall a, b | a in multiset(results) && b in multiset(results) && Keyset.CompareRows(specs, cols, a, b) == 0 ensures a == b {
      var i :| 0 <= i < |results| && results[i] == a;
      var j :| 0 <= j < |results| && results[j] == b;
      if i != j {
        ShownRowsDiffer(s, shape, keys, p, base, cols, results, source, i, j);
      }
    }
  }

  // ---- The order that was asked for ----

  // Whether value a may come before value b under a sort key.
  predicate Ordered(k: QP.SortKey, a: Value, b: Value)
  {
    if a.Null? && b.Null? then true
    else if a.Null? then !k.nullsLast
    else if b.Null? then k.nullsLast
    else if k.direction.Desc? then a.rank >= b.rank
    else a.rank <= b.rank
  }

  predicate SameFields(keys: seq<QP.SortKey>, m: nat, cols: Header, a: Row, b: Row)
    requires m <= |keys|
  {
    forall l :: 0 <= l < m ==> Field(cols, a, keys[l].column) == Field(cols, b, keys[l].column)
  }

  // Any two rows, the one before the other: they stand as the first sort key in which they differ asks, and they do
  // differ in one.
  ghost predicate AsAsked(keys: seq<QP.SortKey>, cols: Header, rows: seq<Row>)
  {
    forall i, j :: 0 <= i < j < |rows| ==> RowsAsAsked(keys, cols, rows[i], rows[j])
  }

  ghost predicate RowsAsAsked(keys: seq<QP.SortKey>, cols: Header, a: Row, b: Row)
  {
    && !SameFields(keys, |keys|, cols, a, b)
    && forall m: nat :: m < |keys| && SameFields(keys, m, cols, a, b) ==>
         Ordered(keys[m], Field(cols, a, keys[m].column), Field(cols, b, keys[m].column))
  }

  lemma CompareIsOrdered(spec: Keyset.SortSpec, k: QP.SortKey, a: Value, b: Value)
    requires spec.asc == !k.direction.Desc? && spec.nullsLast == k.nullsLast
    ensures Keyset.CompareValues(spec, a, b) <= 0 <==> Ordered(k, a, b)
    ensures Keyset.CompareValues(spec, a, b) == 0 <==> a == b
  {
  }

  lemma {:induction false} ComparedFromDiffer(keys: seq<QP.SortKey>, specs: seq<Keyset.SortSpec>, n: nat, cols: Header, a: Row, b: Row)
    requires |specs| == |keys| && n <= |keys| && Keyset.CompareFrom(specs, n, cols, a, b) < 0
    requires forall i :: 0 <= i < |keys| ==>
      specs[i].column == keys[i].column && specs[i].asc == !keys[i].direction.Desc? && specs[i].nullsLast == keys[i].nullsLast
    requires SameFields(keys, n, cols, a, b)
    ensures RowsAsAsked(keys, cols, a, b)
    decreases |keys| - n
  {
    if n < |keys| {
      var (x, y) := (Field(cols, a, keys[n].column), Field(cols, b, keys[n].column));
      CompareIsOrdered(specs[n], keys[n], x, y);
      hide Field, Ordered;
      if x == y {
        ComparedFromDiffer(keys, specs, n + 1, cols, a, b);
      } else {
        EarlierKeysOrdered(keys, n, cols, a, b);
      }
    }
  }

  // Up to the first key in which two rows differ.
  lemma EarlierKeysOrdered(keys: seq<QP.SortKey>, n: nat, cols: Header, a: Row, b: Row)
    requires n < |keys| && SameFields(keys, n, cols, a, b)
    requires Field(cols, a, keys[n].column) != Field(cols, b, keys[n].column)
    requires Ordered(keys[n], Field(cols, a, keys[n].column), Field(cols, b, keys[n].column))
    ensures RowsAsAsked(keys, cols, a, b)
  {
    hide Field, Ordered;
    assert forall m: nat :: m < |keys| && SameFields(keys, m, cols, a, b) ==> m <= n;
    assert forall m: nat :: m < n ==> Field(cols, a, keys[m].column) == Field(cols, b, keys[m].column);
    forall m: nat | m < n ensures Ordered(keys[m], Field(cols, a, keys[m].column), Field(cols, b, keys[m].column)) {
      SameIsOrdered(keys[m], Field(cols, a, keys[m].column));
    }
  }

  lemma SameIsOrdered(k: QP.SortKey, a: Value)
    ensures Ordered(k, a, a)
  {
  }

  // Every listing sorted by an accepted plan is in the order that the sort keys ask for.
  lemma ListingIsAsAsked(s: QP.Snapshot, shape: QP.QueryShape, keys: seq<QP.SortKey>, p: QP.VerifiedSortPlan, cols: Header,
      listing: seq<Row>)
    requires QP.ProvedPlan(s, shape, keys, p) && PagingRuns.StrictlySorted(ForAdapter(p.specs), cols, listing)
    ensures AsAsked(keys, cols, listing)
  {
    PlanFollows(s, shape, keys, p);
    hide QP.ProvedPlan, Field, RowsAsAsked;
    forall i, j | 0 <= i < j < |listing| ensures RowsAsAsked(keys, cols, listing[i], listing[j]) {
      assert Keyset.CompareRows(ForAdapter(p.specs), cols, listing[i], listing[j]) < 0;
      ComparedFromDiffer(keys, ForAdapter(p.specs), 0, cols, listing[i], listing[j]);
    }
  }

  lemma PlanFollows(s: QP.Snapshot, shape: QP.QueryShape, keys: seq<QP.SortKey>, p: QP.VerifiedSortPlan)
    requires QP.ProvedPlan(s, shape, keys, p)
    ensures |p.specs| == |keys| && forall i :: 0 <= i < |keys| ==> QP.Follows(shape, keys[i], p.specs[i])
  {
    forall i | 0 <= i < |keys| ensures QP.Follows(shape, keys[i], p.specs[i]) {
      assert QP.Traceable(s, shape, keys[i]);
      hide ValidIdent, QP.BaseColumn;
    }
  }

  // The rows are the first of the result in the order asked for, each once: all of them, or as many as the cap allows.
  ghost predicate FirstRows(keys: seq<QP.SortKey>, cols: Header, results: seq<Row>, cap: int, rows: seq<Row>)
  {
    exists listing: seq<Row> :: multiset(listing) == multiset(results) && AsAsked(keys, cols, listing) && FirstOf(listing, cap, rows)
  }

  predicate FirstOf(listing: seq<Row>, cap: int, rows: seq<Row>)
  {
    if |listing| <= cap then rows == listing else |rows| == cap && rows <= listing
  }

  // A request that carries the accepted plan to the handle it was proved for.
  ghost predicate Carries(h: Paging.Handle, req: Paging.FirstPageRequest, p: QP.VerifiedSortPlan)
  {
    && req.plan == Some(Paging.Plan(ForAdapter(p.specs), p.binding.connectionID, p.binding.poolGeneration))
    && h.connectionID == p.binding.connectionID && h.generation == p.binding.poolGeneration
  }

  // The chain in one statement: when VerifySortPlan accepted, every complete run of pages over the query's result
  // returns exactly the first rows of that result in the order the sort keys ask for, each once, up to the row cap.
  lemma VerifiedPagingIsExact(s: QP.Snapshot, shape: QP.QueryShape, keys: seq<QP.SortKey>, p: QP.VerifiedSortPlan,
      base: seq<Row>,
      cols: Header, results: seq<Row>, source: seq<nat>, h: Paging.Handle, req: Paging.FirstPageRequest, pages: seq<Paging.Page>)
    requires QP.ProvedPlan(s, shape, keys, p) && CaseDistinct(s.dialect, s.meta.columns) && Obeys(s.meta, base)
    requires Shows(s.dialect, s.meta, p.specs, base, cols, results, source)
    requires Carries(h, req, p)
    requires PagingRuns.Run(h, req, cols, multiset(results), pages) && !pages[|pages| - 1].hasMore
    ensures FirstRows(keys, cols, results, if req.maxRows > 0 then req.maxRows else 500, PagingRuns.AllRows(pages))
  {
    hide QP.ProvedPlan, Obeys, CaseDistinct, Shows, PagingRuns.IsKey, PagingRuns.StrictlySorted, PagingRuns.FirstPage, AsAsked;
    ShownResultIsKeyed(s, shape, keys, p, base, cols, results, source);
    var listing := PagingRuns.ListingExists(h, req, cols, multiset(results), pages[0]);
    PagingRuns.PagingIsExact(h, req, cols, listing, pages);
    ListingIsAsAsked(s, shape, keys, p, cols, listing);
    assert multiset(listing) == multiset(results);
  }

  lemma CarriedPlanIsUsable(s: QP.Snapshot, shape: QP.QueryShape, keys: seq<QP.SortKey>, p: QP.VerifiedSortPlan,
      h: Paging.Handle, req: Paging.FirstPageRequest)
    requires QP.ProvedPlan(s, shape, keys, p) && Carries(h, req, p)
    ensures Paging.FirstCall(h, req).Ok?
  {
    assert forall i :: 0 <= i < |keys| ==> QP.Traceable(s, shape, keys[i]);
    hide ValidIdent;
  }

  // And whether there is a finished run: if and only if one page suffices, or the names of the result are distinct and
  // every sort column occurs among them as it is spelled.
  lemma VerifiedPagingFinishes(s: QP.Snapshot, shape: QP.QueryShape, keys: seq<QP.SortKey>, p: QP.VerifiedSortPlan, base: seq<Row>,
      cols: Header, results: seq<Row>, source: seq<nat>, h: Paging.Handle, req: Paging.FirstPageRequest)
    requires QP.ProvedPlan(s, shape, keys, p) && CaseDistinct(s.dialect, s.meta.columns) && Obeys(s.meta, base)
    requires Shows(s.dialect, s.meta, p.specs, base, cols, results, source) && Carries(h, req, p)
    requires PagingRuns.Shaped(cols, multiset(results)) && PagingRuns.Resolves(cols, ForAdapter(p.specs))
    ensures var cap := if req.maxRows > 0 then req.maxRows else 500;
      var pageSize := if req.pageSize <= 0 then 100 else if req.pageSize <= 500 then req.pageSize else 500;
      (exists pages :: PagingProgress.Finished(h, req, cols, multiset(results), pages))
      <==> |results| <= pageSize || cap <= pageSize || Spelled(cols.names, keys)
  {
    CarriedPlanIsUsable(s, shape, keys, p, h, req);
    ShownResultIsKeyed(s, shape, keys, p, base, cols, results, source);
    hide QP.ProvedPlan, Obeys, CaseDistinct, Shows, PagingRuns.IsKey, PagingRuns.Shaped, PagingRuns.Resolves, Paging.Extractable;
    PagingProgress.FinishedRunExists(h, req, cols, multiset(results));
    SpelledIsExtractable(s, shape, keys, p, cols.names);
  }

  // No two columns of the result have the same name, and every sort key names one of them as it is spelled.
  predicate Spelled(names: seq<string>, keys: seq<QP.SortKey>)
  {
    && (forall i, j :: 0 <= i < j < |names| ==> names[i] != names[j])
    && forall i :: 0 <= i < |keys| ==> keys[i].column in names
  }

  lemma SpelledIsExtractable(s: QP.Snapshot, shape: QP.QueryShape, keys: seq<QP.SortKey>, p: QP.VerifiedSortPlan,
      names: seq<string>)
    requires QP.ProvedPlan(s, shape, keys, p)
    ensures Spelled(names, keys) <==> Paging.Extractable(names, ForAdapter(p.specs))
  {
    PlanFollows(s, shape, keys, p);
    hide QP.ProvedPlan;
    assert forall i :: 0 <= i < |keys| ==> ForAdapter(p.specs)[i].column == keys[i].column;
  }

  // ---- An accepted plan whose run cannot be finished ----

  // SELECT * in MySQL from a table with the primary key id, sorted by ID: two rows, one to a page.
  const ID_TABLE := QP.TableMetadata("app", "users", [QP.Column("id", 1, false)], Some(["id"]), [])

  const ID_SNAPSHOT := QP.Snapshot("c", MySQL, 0, "g", ID_TABLE)

  const ID_SHAPE := QP.QueryShape("app", "users", true, map[])

  const ID_PLAN := QP.VerifiedSortPlan([QP.SortSpec("ID", "ID", true, false)], QP.Binding("c", MySQL, 0, "g"))

  const ID_ROWS: seq<Row> := [[Val(1)], [Val(2)]]

  const ID_REQUEST := Paging.FirstPageRequest([], Some(Paging.Plan(ForAdapter(ID_PLAN.specs), "c", 0)), 1, 10)

  lemma SpellingsAgree()
    ensures SameIdent(MySQL, "id", "ID") && SameIdent(MySQL, "ID", "id") && SameIdent(MySQL, "id", "id")
    ensures "id" != "ID"
  {
    assert Fold("id") == "id" && Fold("ID") == "id";
    assert "id"[0] != "ID"[0];
  }

  lemma IdPlanIsProved()
    ensures QP.ProvedPlan(ID_SNAPSHOT, ID_SHAPE, [QP.SortKey("ID", QP.Asc, false)], ID_PLAN)
  {
    SpellingsAgree();
    var (keys, cols) := ([QP.SortKey("ID", QP.Asc, false)], ID_TABLE.columns);
    hide Fold;
    assert cols[0].name == "id" && QP.ColumnNamed(cols, "id") && QP.BaseColumn(MySQL, cols, "ID");
    assert ["id"][0] == "id" && QP.KeyColumnsKnown(cols, ["id"]) && QP.NotNull(MySQL, cols, "id");
    assert QP.SpecsOf(ID_SHAPE, keys) == ID_PLAN.specs;
    assert QP.SortsBy(MySQL, ID_PLAN.specs, "id") by { assert SameIdent(MySQL, ID_PLAN.specs[0].baseColumn, "id"); }
    assert QP.UniqueKey(MySQL, ID_TABLE, ["id"]) && QP.Covers(MySQL, ID_PLAN.specs, ["id"]);
  }

  lemma IdTableIsObeyed()
    ensures Obeys(ID_TABLE, ID_ROWS) && CaseDistinct(MySQL, ID_TABLE.columns)
  {
    assert CellOf(PostgreSQL, ID_TABLE.columns, ID_ROWS[0], "id") == Val(1);
    assert CellOf(PostgreSQL, ID_TABLE.columns, ID_ROWS[1], "id") == Val(2);
    assert ["id"][0] == "id";
  }

  // The plan is accepted, the table obeys its metadata and the database resolves the sort column, but the first page
  // reports a second row that no next page can be asked for.
  lemma MisspelledSortColumnStops(h: Paging.Handle)
    requires h == Paging.Handle(MySQL, "c", 0)
    ensures QP.ProvedPlan(ID_SNAPSHOT, ID_SHAPE, [QP.SortKey("ID", QP.Asc, false)], ID_PLAN)
    ensures Obeys(ID_TABLE, ID_ROWS) && Carries(h, ID_REQUEST, ID_PLAN)
    ensures var cols := Header(MySQL, ["id"]);
      && Shows(MySQL, ID_TABLE, ID_PLAN.specs, ID_ROWS, cols, ID_ROWS, [0, 1]) && PagingRuns.Resolves(cols, ForAdapter(ID_PLAN.specs))
      && !exists pages :: PagingProgress.Finished(h, ID_REQUEST, cols, multiset(ID_ROWS), pages)
  {
    var (cols, keys) := (Header(MySQL, ["id"]), [QP.SortKey("ID", QP.Asc, false)]);
    IdPlanIsProved();
    IdTableIsObeyed();
    IdRowsAreShown();
    IdColumnResolves(cols);
    hide Fold, QP.ProvedPlan, Obeys, Shows, Spelled, PagingRuns.Resolves, PagingRuns.Shaped, PagingProgress.Finished, CaseDistinct;
    assert |ID_ROWS| == 2;
    VerifiedPagingFinishes(ID_SNAPSHOT, ID_SHAPE, keys, ID_PLAN, ID_ROWS, cols, ID_ROWS, [0, 1], h, ID_REQUEST);
  }

  lemma IdColumnResolves(cols: Header)
    requires cols == Header(MySQL, ["id"])
    ensures PagingRuns.Resolves(cols, ForAdapter(ID_PLAN.specs)) && PagingRuns.Shaped(cols, multiset(ID_ROWS))
    ensures !Spelled(cols.names, [QP.SortKey("ID", QP.Asc, false)])
  {
    SpellingsAgree();
    hide Fold;
    var specs := ForAdapter(ID_PLAN.specs);
    assert cols.names[0] == "id" && specs[0].column == "ID" && PagingRuns.ResolvesTo(cols, "ID", 0);
    assert [QP.SortKey("ID", QP.Asc, false)][0].column == "ID" && "ID" !in cols.names;
  }

  lemma IdRowsAreShown()
    ensures Shows(MySQL, ID_TABLE, ID_PLAN.specs, ID_ROWS, Header(MySQL, ["id"]), ID_ROWS, [0, 1])
  {
    SpellingsAgree();
    hide Fold;
    var cols := Header(MySQL, ["id"]);
    forall i | 0 <= i < 2 ensures Field(cols, ID_ROWS[i], "ID") == CellOf(MySQL, ID_TABLE.columns, ID_ROWS[i], "ID") {
      assert Field(cols, ID_ROWS[i], "ID") == ID_ROWS[i][0];
      assert CellOf(MySQL, ID_TABLE.columns, ID_ROWS[i], "ID") == ID_ROWS[i][0];
    }
  }
}
