/** Query results as a row view and a column view, and what indexing expressions see in them. */
module QueryResults {
  import opened Common
  import opened Values
  import opened Ast
  import opened Evaluation

  /** What the driver returns: every row has one cell for each column. */
  datatype ResultSet = ResultSet(columns: seq<string>, rows: seq<seq<Value>>) {
    predicate Valid() { forall i :: 0 <= i < |rows| ==> |rows[i]| == |columns| }

    /** Column metadata is taken from the first row, so an empty result has no columns. */
    function Columns(): seq<string> { if rows == [] then [] else columns }
  }

  function Bucket(rows: seq<seq<Value>>, j: nat): seq<Value>
    requires forall i :: 0 <= i < |rows| ==> j < |rows[i]|
  {
    seq(|rows|, i requires 0 <= i < |rows| => rows[i][j])
  }

  function RowView(rows: seq<seq<Value>>): Value {
    ArrayV(seq(|rows|, i requires 0 <= i < |rows| => ArrayV(rows[i])))
  }

  /** The first `n` columns, inserted by name in declared order. */
  function ColumnView(rs: ResultSet, n: nat): Dict
    requires rs.Valid() && n <= |rs.columns|
  {
    if n == 0 then [] else Insert(ColumnView(rs, n - 1), rs.columns[n - 1], ArrayV(Bucket(rs.rows, n - 1)))
  }

  function ResultDict(rs: ResultSet): Dict
    requires rs.Valid()
  {
    var n := |rs.Columns()|;
    Insert(Insert(Insert(Insert([], "row", RowView(rs.rows)), "col", DictV(ColumnView(rs, n))),
                  "row_count", NumberV(|rs.rows|)), "col_count", NumberV(n))
  }

  /** One pass over the cells fills both views. */
  method BuildResultDict(rs: ResultSet) returns (out: Dict)
    requires rs.Valid()
    ensures out == ResultDict(rs)
  {
    var columns := rs.Columns();
    var rowValues: seq<Value> := [];
    var buckets: seq<seq<Value>> := seq(|columns|, _ => []);
    for r := 0 to |rs.rows|
      invariant ArrayV(rowValues) == RowView(rs.rows[..r])
      invariant |buckets| == |columns|
      invariant forall j :: 0 <= j < |columns| ==> buckets[j] == Bucket(rs.rows[..r], j)
    {
      var cells: seq<Value> := [];
      ghost var was := buckets;
      for i := 0 to |columns|
        invariant cells == rs.rows[r][..i] && |buckets| == |columns|
        invariant forall j :: 0 <= j < |columns| ==> buckets[j] == if j < i then was[j] + [rs.rows[r][j]] else was[j]
      {
        var v := rs.rows[r][i];
        buckets := buckets[i := buckets[i] + [v]];
        cells := cells + [v];
      }
      assert cells == rs.rows[r];
      ExtendBuckets(rs, r, was, buckets);
      assert rs.rows[..r + 1] == rs.rows[..r] + [rs.rows[r]];
      rowValues := rowValues + [ArrayV(cells)];
    }
    assert rs.rows[..|rs.rows|] == rs.rows;
    var colDict: Dict := [];
    for i := 0 to |columns|
      invariant colDict == ColumnView(rs, i)
    {
      colDict := Insert(colDict, columns[i], ArrayV(buckets[i]));
    }
    out := Insert([], "row", ArrayV(rowValues));
    out := Insert(out, "col", DictV(colDict));
    out := Insert(out, "row_count", NumberV(|rs.rows|));
    out := Insert(out, "col_count", NumberV(|columns|));
  }

  lemma ExtendBuckets(rs: ResultSet, r: nat, was: seq<seq<Value>>, now: seq<seq<Value>>)
    requires rs.Valid() && r < |rs.rows| && |was| == |now| == |rs.columns|
    requires forall j :: 0 <= j < |was| ==> was[j] == Bucket(rs.rows[..r], j) && now[j] == was[j] + [rs.rows[r][j]]
    ensures forall j :: 0 <= j < |now| ==> now[j] == Bucket(rs.rows[..r + 1], j)
  {
    forall j | 0 <= j < |now|
      ensures now[j] == Bucket(rs.rows[..r + 1], j)
    {
      assert now[j] == was[j] + [rs.rows[r][j]];
    }
  }

  // ── What a column dictionary holds ──────────────────────────────────────────

  predicate Distinct(names: seq<string>) {
    forall i, j :: 0 <= i < j < |names| ==> names[i] != names[j]
  }

  lemma {:induction false} InsertFresh(d: Dict, key: string, v: Value)
    requires forall i :: 0 <= i < |d| ==> d[i].key != key
    ensures Insert(d, key, v) == d + [Field(key, v)]
  {
    if d != [] {
      InsertFresh(d[1..], key, v);
    }
  }

  lemma {:induction false} InsertLength(d: Dict, key: string, v: Value)
    ensures |Insert(d, key, v)| == |d| + if Get(d, key).Some? then 0 else 1
  {
    if d != [] && d[0].key != key {
      InsertLength(d[1..], key, v);
    }
  }

  /** With distinct names the j-th entry is the j-th column. */
  lemma {:induction false} ColumnAt(rs: ResultSet, n: nat)
    requires rs.Valid() && n <= |rs.columns| && Distinct(rs.columns)
    ensures |ColumnView(rs, n)| == n
    ensures forall j :: 0 <= j < n ==> ColumnView(rs, n)[j] == Field(rs.columns[j], ArrayV(Bucket(rs.rows, j)))
  {
    if n > 0 {
      ColumnAt(rs, n - 1);
      InsertFresh(ColumnView(rs, n - 1), rs.columns[n - 1], ArrayV(Bucket(rs.rows, n - 1)));
    }
  }

  /** Every inserted name is a key. */
  lemma {:induction false} ColumnKeys(rs: ResultSet, n: nat, j: nat)
    requires rs.Valid() && j < n <= |rs.columns|
    ensures Get(ColumnView(rs, n), rs.columns[j]).Some?
  {
    GetInsert(ColumnView(rs, n - 1), rs.columns[n - 1], ArrayV(Bucket(rs.rows, n - 1)), rs.columns[j]);
    if j < n - 1 {
      ColumnKeys(rs, n - 1, j);
    }
  }

  lemma {:induction false} AtMostOneEntryEach(rs: ResultSet, n: nat)
    requires rs.Valid() && n <= |rs.columns|
    ensures |ColumnView(rs, n)| <= n
  {
    if n > 0 {
      AtMostOneEntryEach(rs, n - 1);
      InsertLength(ColumnView(rs, n - 1), rs.columns[n - 1], ArrayV(Bucket(rs.rows, n - 1)));
    }
  }

  /** Under any names, a name leads to the last column that bears it. */
  lemma {:induction false} ColumnByName(rs: ResultSet, n: nat, j: nat)
    requires rs.Valid() && j < n <= |rs.columns|
    requires forall k :: j < k < n ==> rs.columns[k] != rs.columns[j]
    ensures Get(ColumnView(rs, n), rs.columns[j]) == Some(ArrayV(Bucket(rs.rows, j)))
  {
    GetInsert(ColumnView(rs, n - 1), rs.columns[n - 1], ArrayV(Bucket(rs.rows, n - 1)), rs.columns[j]);
    if j < n - 1 {
      ColumnByName(rs, n - 1, j);
    }
  }

  /** A repeated name loses an entry for good. */
  lemma {:induction false} RepeatShrinks(rs: ResultSet, n: nat, i: nat, j: nat)
    requires rs.Valid() && i < j < n <= |rs.columns| && rs.columns[i] == rs.columns[j]
    ensures |ColumnView(rs, n)| < n
  {
    InsertLength(ColumnView(rs, n - 1), rs.columns[n - 1], ArrayV(Bucket(rs.rows, n - 1)));
    if j == n - 1 {
      AtMostOneEntryEach(rs, n - 1);
      ColumnKeys(rs, n - 1, i);
    } else {
      RepeatShrinks(rs, n - 1, i, j);
    }
  }

  // ── Through the evaluator ───────────────────────────────────────────────────

  function OkField(field: string): Expr { Member(Ident("ok"), field) }

  function At(e: Expr, n: nat): Expr { Index(e, [NumberLit(n)]) }

  lemma ResultFields(rs: ResultSet)
    requires rs.Valid()
    ensures Get(ResultDict(rs), "row") == Some(RowView(rs.rows))
    ensures Get(ResultDict(rs), "col") == Some(DictV(ColumnView(rs, |rs.Columns()|)))
    ensures Get(ResultDict(rs), "row_count") == Some(NumberV(|rs.rows|))
    ensures Get(ResultDict(rs), "col_count") == Some(NumberV(|rs.Columns()|))
  {
    var n := |rs.Columns()|;
    var a := Insert([], "row", RowView(rs.rows));
    var b := Insert(a, "col", DictV(ColumnView(rs, n)));
    var c := Insert(b, "row_count", NumberV(|rs.rows|));
    GetInsert([], "row", RowView(rs.rows), "row");
    GetInsert(a, "col", DictV(ColumnView(rs, n)), "row");
    GetInsert(a, "col", DictV(ColumnView(rs, n)), "col");
    GetInsert(b, "row_count", NumberV(|rs.rows|), "row");
    GetInsert(b, "row_count", NumberV(|rs.rows|), "col");
    GetInsert(b, "row_count", NumberV(|rs.rows|), "row_count");
    GetInsert(c, "col_count", NumberV(n), "row");
    GetInsert(c, "col_count", NumberV(n), "col");
    GetInsert(c, "col_count", NumberV(n), "row_count");
    GetInsert(c, "col_count", NumberV(n), "col_count");
    hide Insert;
  }

  lemma IndexOnce(v: Value, e: Expr, i: Value, scope: Scope, lib: Library)
    requires Eval(e, scope, lib) == Ok(i)
    ensures IndexAll(v, [e], scope, lib) == IndexInto(v, i)
  {
    assert [e][1..] == [];
    var next := IndexInto(v, i);
    if next.Ok? {
      assert IndexAll(next.value, [], scope, lib) == next;
    }
  }

  lemma EvalAt(e: Expr, n: nat, scope: Scope, lib: Library)
    ensures Eval(At(e, n), scope, lib) ==
              var o := Eval(e, scope, lib); if o.Err? then o else IndexInto(o.value, NumberV(n))
  {
    var o := Eval(e, scope, lib);
    if o.Ok? {
      IndexOnce(o.value, NumberLit(n), NumberV(n), scope, lib);
    }
  }

  /** Splitting a list of indices into nested index expressions changes neither value nor error. */
  lemma {:induction false} IndexAllSplit(v: Value, xs: seq<Expr>, ys: seq<Expr>, scope: Scope, lib: Library)
    ensures IndexAll(v, xs + ys, scope, lib) ==
              var r := IndexAll(v, xs, scope, lib); if r.Err? then r else IndexAll(r.value, ys, scope, lib)
    decreases |xs|
  {
    if xs == [] {
      assert xs + ys == ys;
    } else {
      assert (xs + ys)[0] == xs[0] && (xs + ys)[1..] == xs[1..] + ys;
      var i := Eval(xs[0], scope, lib);
      if i.Ok? && IndexInto(v, i.value).Ok? {
        IndexAllSplit(IndexInto(v, i.value).value, xs[1..], ys, scope, lib);
      }
    }
  }

  lemma NestedIndexing(e: Expr, xs: seq<Expr>, ys: seq<Expr>, scope: Scope, lib: Library)
    ensures Eval(Index(Index(e, xs), ys), scope, lib) == Eval(Index(e, xs + ys), scope, lib)
  {
    var o := Eval(e, scope, lib);
    if o.Ok? {
      IndexAllSplit(o.value, xs, ys, scope, lib);
    }
  }

  lemma RowCell(rs: ResultSet, scope: Scope, lib: Library, i: nat, j: nat)
    requires rs.Valid() && i < |rs.rows| && j < |rs.columns|
    requires "ok" in scope && scope["ok"] == DictV(ResultDict(rs))
    ensures Eval(At(At(OkField("row"), i), j), scope, lib) == Ok(rs.rows[i][j])
  {
    ResultFields(rs);
    EvalAt(OkField("row"), i, scope, lib);
    EvalAt(At(OkField("row"), i), j, scope, lib);
  }

  lemma ColumnCell(rs: ResultSet, scope: Scope, lib: Library, i: nat, j: nat)
    requires rs.Valid() && i < |rs.rows| && j < |rs.columns| && Distinct(rs.columns)
    requires "ok" in scope && scope["ok"] == DictV(ResultDict(rs))
    ensures Eval(At(At(OkField("col"), j), i), scope, lib) == Ok(rs.rows[i][j])
  {
    ResultFields(rs);
    ColumnAt(rs, |rs.columns|);
    EvalAt(OkField("col"), j, scope, lib);
    EvalAt(At(OkField("col"), j), i, scope, lib);
  }

  lemma EvalByName(e: Expr, name: string, scope: Scope, lib: Library)
    ensures Eval(Index(e, [StringLit([Text(name)])]), scope, lib) ==
              var o := Eval(e, scope, lib); if o.Err? then o else IndexInto(o.value, StringV(name))
  {
    var key := StringLit([Text(name)]);
    RenderText(name, scope, lib);
    var o := Eval(e, scope, lib);
    if o.Ok? {
      IndexOnce(o.value, key, StringV(name), scope, lib);
    }
  }

  lemma RenderText(t: string, scope: Scope, lib: Library)
    ensures Render([Text(t)], scope, lib) == Ok(t)
  {
    assert [Text(t)][1..] == [] && t + [] == t;
    assert Render([], scope, lib) == Ok([]);
    assert RenderOne(Text(t), scope, lib) == Ok(t);
  }

  /** `j` is the last column of its name. */
  lemma NamedCell(rs: ResultSet, scope: Scope, lib: Library, i: nat, j: nat)
    requires rs.Valid() && i < |rs.rows| && j < |rs.columns|
    requires forall k :: j < k < |rs.columns| ==> rs.columns[k] != rs.columns[j]
    requires "ok" in scope && scope["ok"] == DictV(ResultDict(rs))
    ensures Eval(At(Index(OkField("col"), [StringLit([Text(rs.columns[j])])]), i), scope, lib) == Ok(rs.rows[i][j])
  {
    var col := Index(OkField("col"), [StringLit([Text(rs.columns[j])])]);
    ResultFields(rs);
    ColumnByName(rs, |rs.columns|, j);
    EvalByName(OkField("col"), rs.columns[j], scope, lib);
    EvalAt(col, i, scope, lib);
  }

  /** All four spellings of a cell evaluate to that cell. */
  lemma QueryViewsAgree(rs: ResultSet, scope: Scope, lib: Library, i: nat, j: nat)
    requires rs.Valid() && i < |rs.rows| && j < |rs.columns| && Distinct(rs.columns)
    requires "ok" in scope && scope["ok"] == DictV(ResultDict(rs))
    ensures Eval(At(At(OkField("row"), i), j), scope, lib) == Ok(rs.rows[i][j])
    ensures Eval(Index(OkField("row"), [NumberLit(i), NumberLit(j)]), scope, lib) == Ok(rs.rows[i][j])
    ensures Eval(At(At(OkField("col"), j), i), scope, lib) == Ok(rs.rows[i][j])
    ensures Eval(At(Index(OkField("col"), [StringLit([Text(rs.columns[j])])]), i), scope, lib) == Ok(rs.rows[i][j])
  {
    RowCell(rs, scope, lib, i, j);
    ColumnCell(rs, scope, lib, i, j);
    NamedCell(rs, scope, lib, i, j);
    NestedIndexing(OkField("row"), [NumberLit(i)], [NumberLit(j)], scope, lib);
    assert [NumberLit(i)] + [NumberLit(j)] == [NumberLit(i), NumberLit(j)];
  }

  /** The counts are the numbers of rows and of columns, none of the latter without rows, and both views end
      there: one row, cell or column further is out of bounds. */
  lemma ViewsEndAtCounts(rs: ResultSet, scope: Scope, lib: Library, i: nat, j: nat)
    requires rs.Valid() && "ok" in scope && scope["ok"] == DictV(ResultDict(rs))
    ensures Eval(OkField("row_count"), scope, lib) == Ok(NumberV(|rs.rows|))
    ensures Eval(OkField("col_count"), scope, lib) == Ok(NumberV(if rs.rows == [] then 0 else |rs.columns|))
    ensures i >= |rs.rows| ==> Eval(At(OkField("row"), i), scope, lib) == Err(OutOfBounds)
    ensures i < |rs.rows| && j >= |rs.columns| ==> Eval(At(At(OkField("row"), i), j), scope, lib) == Err(OutOfBounds)
    ensures j >= |rs.columns| ==> Eval(At(OkField("col"), j), scope, lib) == Err(OutOfBounds)
  {
    ResultFields(rs);
    AtMostOneEntryEach(rs, |rs.Columns()|);
    hide ColumnView, ResultDict;
    EvalAt(OkField("row"), i, scope, lib);
    EvalAt(At(OkField("row"), i), j, scope, lib);
    EvalAt(OkField("col"), j, scope, lib);
  }

  lemma {:induction false} NoOtherColumn(rs: ResultSet, n: nat, name: string)
    requires rs.Valid() && n <= |rs.columns| && name !in rs.columns
    ensures Get(ColumnView(rs, n), name).None?
  {
    if n > 0 {
      NoOtherColumn(rs, n - 1, name);
      GetInsert(ColumnView(rs, n - 1), rs.columns[n - 1], ArrayV(Bucket(rs.rows, n - 1)), name);
    }
  }

  /** And a name no column bears is not a field of the column view. */
  lemma UnknownColumn(rs: ResultSet, scope: Scope, lib: Library, name: string)
    requires rs.Valid() && "ok" in scope && scope["ok"] == DictV(ResultDict(rs)) && name !in rs.columns
    ensures Eval(Index(OkField("col"), [StringLit([Text(name)])]), scope, lib) == Err(NoField(name))
  {
    ResultFields(rs);
    NoOtherColumn(rs, |rs.Columns()|, name);
    hide ColumnView, ResultDict;
    EvalByName(OkField("col"), name, scope, lib);
  }

  /** Position `j` of the column view is column `j`, for every column. */
  predicate ColumnsByPosition(rs: ResultSet, scope: Scope, lib: Library)
    requires rs.Valid()
  {
    forall j: nat :: j < |rs.columns| ==> Eval(At(OkField("col"), j), scope, lib) == Ok(ArrayV(Bucket(rs.rows, j)))
  }

  /** Which is so exactly when there are no columns, or there are rows and the names are distinct; in all
      other cases some position is not even there. */
  lemma ColumnsByPositionIff(rs: ResultSet, scope: Scope, lib: Library)
    requires rs.Valid() && "ok" in scope && scope["ok"] == DictV(ResultDict(rs))
    ensures ColumnsByPosition(rs, scope, lib) <==> rs.columns == [] || (rs.rows != [] && Distinct(rs.columns))
    ensures ColumnsByPosition(rs, scope, lib) <==>
              (forall j: nat :: j < |rs.columns| ==> Eval(At(OkField("col"), j), scope, lib).Ok?)
  {
    ResultFields(rs);
    var n := |rs.Columns()|;
    var view := ColumnView(rs, n);
    forall j: nat
      ensures Eval(At(OkField("col"), j), scope, lib) ==
                if j < |view| then Ok(view[j].value) else Err(OutOfBounds)
    {
      EvalAt(OkField("col"), j, scope, lib);
    }
    if rs.rows != [] && Distinct(rs.columns) {
      ColumnAt(rs, n);
    } else if rs.columns != [] {
      if rs.rows != [] {
        var i, j :| 0 <= i < j < n && rs.columns[i] == rs.columns[j];
        RepeatShrinks(rs, n, i, j);
      }
      assert Eval(At(OkField("col"), |rs.columns| - 1), scope, lib) == Err(OutOfBounds);
    }
  }

  const NO_ROWS := ResultSet(["a"], [])

  /** Where it fails: without rows there are no columns either, by position or by name. */
  lemma NoRowsNoColumns(scope: Scope, lib: Library)
    requires "ok" in scope && scope["ok"] == DictV(ResultDict(NO_ROWS))
    ensures Eval(At(OkField("col"), 0), scope, lib) == Err(OutOfBounds)
    ensures Eval(Index(OkField("col"), [StringLit([Text("a")])]), scope, lib) == Err(NoField("a"))
  {
    ResultFields(NO_ROWS);
    EvalAt(OkField("col"), 0, scope, lib);
    EvalByName(OkField("col"), "a", scope, lib);
  }

  const TWINS := ResultSet(["a", "a"], [[NumberV(1), NumberV(2)]])

  /** Where it fails: with two columns called `a`, position 0 shows the second one and position 1 is out
      of bounds, while the row view still holds both cells. */
  lemma TwinColumnsCollapse(scope: Scope, lib: Library)
    requires "ok" in scope && scope["ok"] == DictV(ResultDict(TWINS))
    ensures Eval(At(At(OkField("col"), 0), 0), scope, lib) == Ok(NumberV(2))
    ensures Eval(At(OkField("col"), 1), scope, lib) == Err(OutOfBounds)
    ensures Eval(At(At(OkField("row"), 0), 0), scope, lib) == Ok(NumberV(1))
    ensures Eval(At(At(OkField("row"), 0), 1), scope, lib) == Ok(NumberV(2))
  {
    ResultFields(TWINS);
    var one, two := ArrayV(Bucket(TWINS.rows, 0)), ArrayV(Bucket(TWINS.rows, 1));
    assert ColumnView(TWINS, 0) == [] && ColumnView(TWINS, 1) == [Field("a", one)];
    assert [Field("a", one)][1..] == [] && ColumnView(TWINS, 2) == [Field("a", two)];
    EvalAt(OkField("col"), 0, scope, lib);
    EvalAt(OkField("col"), 1, scope, lib);
    EvalAt(At(OkField("col"), 0), 0, scope, lib);
    RowCell(TWINS, scope, lib, 0, 0);
    RowCell(TWINS, scope, lib, 0, 1);
  }
}
