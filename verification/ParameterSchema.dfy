/** The parameter schema announced for an INSERT, and a batch bound by it. */
module ParameterSchema {
  import opened Ascii
  import opened Wrappers
  import opened Numbers
  import opened Batches
  import opened MultiRowInsert

  /** The first field of that name, in any case. */
  function FindField(table: seq<Field>, name: string): (f: Option<Field>)
    ensures f.Some? ==> f.value in table && EqIgnoreCase(f.value.name, name)
    ensures f.None? ==> forall j :: 0 <= j < |table| ==> !EqIgnoreCase(table[j].name, name)
  {
    if table == [] then None
    else if EqIgnoreCase(table[0].name, name) then Some(table[0])
    else FindField(table[1..], name)
  }

  /** The fields of the names that have one. */
  function FindAll(table: seq<Field>, names: seq<string>): (fs: seq<Field>)
    ensures |fs| <= |names|
  {
    if names == [] then []
    else
      var f := FindField(table, names[0]);
      (if f.Some? then [f.value] else []) + FindAll(table, names[1..])
  }

  /** Rows and width of a VALUES list that is not ragged. */
  function Shape(widths: seq<nat>): Option<(nat, nat)> {
    if widths == [] || widths[0] == 0 || exists r :: 0 <= r < |widths| && widths[r] != widths[0] then None
    else Some((|widths|, widths[0]))
  }

  function Cycled(fields: seq<Field>, count: nat): seq<Field>
    requires fields != []
  {
    seq(count, i requires 0 <= i => fields[i % |fields|])
  }

  /** `widths` are the lengths of the rows of VALUES. A table has at least one column, and a
      column list at least one name. */
  function Inferred(
    table: seq<Field>, columns: Option<seq<string>>, widths: seq<nat>, allPlaceholders: bool, params: nat
  ): Option<seq<Field>>
    requires table != [] && (columns.Some? ==> columns.value != [])
  {
    if !allPlaceholders then None
    else
      var shape := Shape(widths);
      var listed := if columns.Some? then |columns.value| else |table|;
      var expected := if shape.Some? then shape.value.0 * shape.value.1 else listed;
      if expected != params then None
      else if columns.Some? then
        var fields := FindAll(table, columns.value);
        if |fields| != |columns.value| then None else Some(Cycled(fields, expected))
      else Some(Cycled(table, expected))
  }

  lemma {:induction false} FoundInOrder(table: seq<Field>, names: seq<string>)
    requires |FindAll(table, names)| == |names|
    ensures forall c :: 0 <= c < |names| ==> FindField(table, names[c]) == Some(FindAll(table, names)[c])
  {
    if names != [] {
      FoundInOrder(table, names[1..]);
    }
  }

  /** The announced schema has one field for every parameter: the one its name finds. */
  lemma {:induction false} InferredFields(
    table: seq<Field>, names: seq<string>, widths: seq<nat>, all: bool, params: nat)
    requires table != [] && names != []
    requires Inferred(table, Some(names), widths, all, params).Some?
    ensures var fields := Inferred(table, Some(names), widths, all, params).value;
            && |fields| == params
            && forall i :: 0 <= i < params ==> FindField(table, names[i % |names|]) == Some(fields[i])
  {
    FoundInOrder(table, names);
  }

  predicate DistinctAnyCase(table: seq<Field>) {
    forall i, j :: 0 <= i < j < |table| ==> !EqIgnoreCase(table[i].name, table[j].name)
  }

  lemma {:induction false} SpelledIsFound(table: seq<Field>, name: string, j: nat)
    requires DistinctAnyCase(table) && j < |table| && table[j].name == name
    ensures FindField(table, name) == Some(table[j])
  {
    var f := FindField(table, name);
    var i :| 0 <= i < |table| && table[i] == f.value;
    assert EqIgnoreCase(table[i].name, table[j].name);
  }

  /** The batch has a value of the announced type for every parameter. */
  predicate BoundAs(b: Batch, fields: seq<Field>) {
    |b.columns| == |fields| && forall i :: 0 <= i < |fields| ==> b.columns[i].dataType == fields[i].dataType
  }

  /** The row of the result that parameter `i` goes to. */
  function RowOf(i: nat, width: nat): nat
    requires 0 < width
  {
    i / width
  }

  /** The cell at a row of a result column. */
  function CellAt(r: Batch, j: nat, row: nat): Option<Cell> {
    if j < |r.columns| && row < |r.columns[j].cells| then Some(r.columns[j].cells[row]) else None
  }

  /** The schema announced for the statement, and the result of aligning the batch. */
  ghost predicate Announced(
    k: Caster, b: Batch, table: seq<Field>, names: seq<string>, widths: seq<nat>, all: bool,
    fields: seq<Field>, r: Batch)
  {
    && table != [] && names != []
    && Inferred(table, Some(names), widths, all, |b.fields|) == Some(fields)
    && Valid(b)
    && Aligned(k, b, table, Some(names)) == Some(r)
  }

  /** A batch bound by the announced schema needs no cast: parameter `i` lands unchanged in
      row `i` / width of the column its name finds, which is the column announced for it. */
  lemma {:induction false} BoundParameterLands(
    k: Caster, b: Batch, table: seq<Field>, names: seq<string>, widths: seq<nat>, all: bool,
    fields: seq<Field>, r: Batch, i: nat, j: nat)
    requires names != [] && i < |fields| && j < |table| && table[j].name == names[i % |names|]
    requires Announced(k, b, table, names, widths, all, fields, r) && OneRow(b, |names|)
    requires DistinctAnyCase(table) && Distinct(names) && |names| < USIZE_LIMIT && BoundAs(b, fields)
    ensures fields[i] == table[j] && CellAt(r, j, RowOf(i, |names|)) == Some(Param(b, i))
  {
    hide Inferred, Aligned, Positional, DistinctAnyCase, FindField, Lands, Valid, Param, EqIgnoreCase;
    var w := |names|;
    var col := ResultColumn(k, b, table, names, r, j);
    InferredFields(table, names, widths, all, |b.fields|);
    SpelledIsFound(table, names[i % w], j);
    ModOnce(i, w);
    assert fields[i] == table[j] && fields[i % w] == table[j];
    OneParameter(k, b, names, table[j], col, fields, i);
  }

  lemma {:induction false} ModOnce(i: nat, w: nat)
    requires 0 < w
    ensures i < w ==> i % w == i
    ensures (i % w) % w == i % w && i % w <= i
  {
    ModSmall(i % w, w);
    if i < w {
      ModSmall(i, w);
    }
  }

  lemma {:induction false} ModSmall(i: nat, w: nat)
    requires i < w
    ensures i % w == i
  {
  }

  /** One row of positional parameters, enough for one or more rows of the table. */
  predicate OneRow(b: Batch, width: nat) {
    Positional(b.fields) && |b.fields| >= width > 0 && |b.fields| % width == 0 && b.rows == 1
  }

  /** With exactly one row's worth nothing is reshaped. */
  lemma {:induction false} ExactLands(k: Caster, b: Batch, table: seq<Field>, names: seq<string>, j: nat)
    requires Distinct(names) && Valid(b) && OneRow(b, |names|) && |b.fields| == |names| && j < |table|
    requires Aligned(k, b, table, Some(names)).Some?
    ensures var r := Aligned(k, b, table, Some(names)).value;
            |r.columns| == |table| && Lands(k, b, names, table[j], r.columns[j])
  {
    ByOrderDistinct(names);
    var lookup := ByOrder(names);
    hide Positional, ByOrder, CastColumn, Lands, Fits;
    assert Lookup(b.fields, table, Some(names)) == Some(lookup);
    ColumnsOneByOne(k, b, lookup, table);
    var r := Aligned(k, b, table, Some(names)).value;
    var f, col := table[j], r.columns[j];
    assert AlignedColumn(k, b, lookup, f) == Some(col);
    hide Aligned, AlignedColumns, Lookup, TryNew;
    ExactColumnLands(k, b, names, f, col);
  }

  lemma {:induction false} ExactColumnLands(k: Caster, b: Batch, names: seq<string>, f: Field, col: Column)
    requires Distinct(names) && Valid(b) && OneRow(b, |names|) && |b.fields| == |names|
    requires AlignedColumn(k, b, ByOrder(names), f) == Some(col)
    ensures Lands(k, b, names, f, col)
  {
    ByOrderDistinct(names);
    var lookup := ByOrder(names);
    hide Positional, ByOrder, CastColumn;
    if f.name in names {
      assert Fits(b.fields[lookup[f.name]], b.columns[lookup[f.name]], 1);
      ExactColumn(k, b, lookup[f.name], f.dataType, col);
      assert forall i :: 0 <= i < |names| && names[i] == f.name ==> i == lookup[f.name];
    }
  }

  lemma {:induction false} ExactColumn(k: Caster, b: Batch, c: nat, to: TypeId, col: Column)
    requires c < |b.columns| == |b.fields| && |b.columns[c].cells| == 1
    requires CastColumn(k, b.columns[c], to) == Some(col)
    ensures RowCount(b, |b.fields|) == |col.cells| == 1 && col.dataType == to
    ensures col.cells[0] == Landed(k, b, |b.fields|, 0, c, to)
  {
  }

  lemma {:induction false} ResultColumn(k: Caster, b: Batch, table: seq<Field>, names: seq<string>, r: Batch, j: nat)
    returns (col: Column)
    requires Distinct(names) && |names| < USIZE_LIMIT && Valid(b) && OneRow(b, |names|) && j < |table|
    requires Aligned(k, b, table, Some(names)) == Some(r)
    ensures j < |r.columns| == |table| && r.columns[j] == col && Lands(k, b, names, table[j], col)
  {
    if |b.fields| == |names| {
      ExactLands(k, b, table, names, j);
      hide Aligned, Positional, Lands;
    } else {
      hide Aligned, Acceptable, Positional, Lands;
      ParametersLand(k, b, table, names);
    }
    col := r.columns[j];
  }

  lemma {:induction false} OneParameter(
    k: Caster, b: Batch, names: seq<string>, f: Field, col: Column, fields: seq<Field>, i: nat)
    requires 0 < |names| <= |b.fields| && |b.fields| % |names| == 0 && i < |b.fields| && f.name == names[i % |names|]
    requires Lands(k, b, names, f, col) && BoundAs(b, fields) && |fields| == |b.fields|
    requires i % |names| < |fields| && fields[i % |names|] == f
    ensures RowOf(i, |names|) < |col.cells| && col.cells[RowOf(i, |names|)] == Param(b, i)
  {
    var w := |names|;
    var row, c := i / w, i % w;
    PlaceOf(i, w, |b.fields|);
    assert ParamType(b, c) == f.dataType;
    hide Param, Place, RowCount;
    assert col.cells[row] == Landed(k, b, w, row, c, f.dataType);
  }

  lemma {:induction false} PlaceOf(i: nat, w: nat, total: nat)
    requires 0 < w && total % w == 0 && i < total
    ensures Place(w, i / w, i % w) == i && i / w < total / w
  {
    assert i == (i / w) * w + i % w;
  }

  /** A name spelled in another case than the table's is announced as a column of the table,
      but its parameters are dropped: that column comes out null. */
  lemma {:induction false} OtherCaseIsDropped(
    k: Caster, b: Batch, table: seq<Field>, names: seq<string>, widths: seq<nat>, all: bool,
    fields: seq<Field>, r: Batch, c: nat, j: nat, row: nat)
    requires Announced(k, b, table, names, widths, all, fields, r) && OneRow(b, |names|)
    requires Distinct(names) && |names| < USIZE_LIMIT && c < |names| && j < |table| && row < RowCount(b, |names|)
    requires FindField(table, names[c]) == Some(table[j]) && table[j].name !in names
    ensures c < |fields| && fields[c] == table[j] && CellAt(r, j, row) == Some(Missing)
  {
    hide Inferred, Aligned, Positional, FindField, Valid, Landed, RowCount;
    InferredFields(table, names, widths, all, |b.fields|);
    var col := ResultColumn(k, b, table, names, r, j);
    ModOnce(c, |names|);
    assert c < |b.fields|;
  }

  /** The parameter is there, and nothing else bound for its row looks like it. */
  predicate Telling(b: Batch, width: nat, i: nat)
    requires 0 < width
  {
    && Param(b, i) != Missing
    && forall i' :: 0 <= i' < |b.fields| && i' != i && RowOf(i', width) == RowOf(i, width) ==>
         Param(b, i') != Param(b, i)
  }

  lemma {:induction false} SiblingPlace(i: nat, w: nat, total: nat, d: nat)
    requires 0 < w && total % w == 0 && i < total && d < w && d != i % w
    ensures var i' := Place(w, RowOf(i, w), d);
            i' < total && i' != i && i' % w == d && RowOf(i', w) == RowOf(i, w)
  {
    var row := RowOf(i, w);
    PlaceOf(i, w, total);
    assert row < total / w;
    hide Place, RowOf;
    SiblingOf(row, w, total, d);
  }

  lemma {:induction false} SiblingOf(row: nat, w: nat, total: nat, d: nat)
    requires 0 < w && total % w == 0 && row < total / w && d < w
    ensures var i' := Place(w, row, d); i' < total && i' % w == d && RowOf(i', w) == row
  {
    PlaceInRange(total, w, row, d);
    ModPlace(w, row, d);
  }

  /** A parameter lands in the column announced for it exactly when the statement spells that
      column as the table does. */
  lemma {:induction false} ParameterLandsIff(
    k: Caster, b: Batch, table: seq<Field>, names: seq<string>, widths: seq<nat>, all: bool,
    fields: seq<Field>, r: Batch, i: nat, j: nat)
    requires names != [] && i < |fields| && j < |table| && fields[i] == table[j] && Telling(b, |names|, i)
    requires Announced(k, b, table, names, widths, all, fields, r) && OneRow(b, |names|)
    requires DistinctAnyCase(table) && Distinct(names) && |names| < USIZE_LIMIT && BoundAs(b, fields)
    ensures CellAt(r, j, RowOf(i, |names|)) == Some(Param(b, i)) <==> table[j].name == names[i % |names|]
  {
    var w := |names|;
    hide Announced, DistinctAnyCase, BoundAs, CellAt, Param, RowOf;
    assert |fields| == |b.fields| && |b.fields| % w == 0 by {
      InferredCount(k, b, table, names, widths, all, fields, r);
      hide Positional;
    }
    hide OneRow;
    if table[j].name == names[i % w] {
      BoundParameterLands(k, b, table, names, widths, all, fields, r, i, j);
    } else if d :| 0 <= d < w && names[d] == table[j].name {
      SiblingPlace(i, w, |b.fields|, d);
      BoundParameterLands(k, b, table, names, widths, all, fields, r, Place(w, RowOf(i, w), d), j);
    } else {
      UnspelledIsMissing(k, b, table, names, widths, all, fields, r, i, j);
    }
  }

  lemma {:induction false} InferredCount(
    k: Caster, b: Batch, table: seq<Field>, names: seq<string>, widths: seq<nat>, all: bool,
    fields: seq<Field>, r: Batch)
    requires Announced(k, b, table, names, widths, all, fields, r)
    ensures |fields| == |b.fields|
  {
    InferredFields(table, names, widths, all, |b.fields|);
    hide Inferred, Aligned, FindField;
  }

  /** A column the statement does not spell as the table does comes out null. */
  lemma {:induction false} UnspelledIsMissing(
    k: Caster, b: Batch, table: seq<Field>, names: seq<string>, widths: seq<nat>, all: bool,
    fields: seq<Field>, r: Batch, i: nat, j: nat)
    requires names != [] && Announced(k, b, table, names, widths, all, fields, r) && OneRow(b, |names|)
    requires Distinct(names) && |names| < USIZE_LIMIT && i < |b.fields| && j < |table| && table[j].name !in names
    ensures CellAt(r, j, RowOf(i, |names|)) == Some(Missing)
  {
    hide Inferred, Aligned, Positional, Valid, Landed;
    PlaceOf(i, |names|, |b.fields|);
    var col := ResultColumn(k, b, table, names, r, j);
    assert RowOf(i, |names|) < |col.cells|;
  }

  /** Two spellings of one column: both parameters are announced for it, the second lands. */
  lemma {:induction false} TwoSpellings()
    ensures var table, names := [Field("id", 0, true)], ["ID", "id"];
            Inferred(table, Some(names), [2], true, 2) == Some([table[0], table[0]])
  {
    var table := [Field("id", 0, true)];
    assert EqIgnoreCase("id", "ID") && EqIgnoreCase("id", "id");
    assert ["ID", "id"][1..] == ["id"] && ["id"][1..] == [];
    assert FindAll(table, ["id"]) == [table[0]];
    assert FindAll(table, ["ID", "id"]) == [table[0], table[0]];
    assert Cycled([table[0], table[0]], 2) == [table[0], table[0]];
  }

  // --- No column list ---

  /** For positional parameters, no column list is the table's columns in their order. */
  lemma {:induction false} NoListIsAllColumns(k: Caster, b: Batch, table: seq<Field>)
    requires Valid(b) && Positional(b.fields) && |table| < USIZE_LIMIT
    ensures Aligned(k, b, table, None) == Aligned(k, b, table, Some(Names(table)))
  {
    var width := |table|;
    if IsWideRow(b, width) {
      ReshapedIff(b, width);
      if Reshaped(b, width).Some? {
        ReshapedCounts(b, width);
      }
    }
    hide Positional, ByOrder, AlignedColumns, Reshaped;
    var used := Used(b, width);
    assert used.Some? ==> Positional(used.value.fields);
    hide Used, Names;
    assert used.Some? ==>
      Lookup(used.value.fields, table, None) == Lookup(used.value.fields, table, Some(Names(table)));
    assert Width(table, None) == width == Width(table, Some(Names(table)));
    hide Lookup, Width, TryNew, NullColumn;
  }

  /** Without a column list every parameter bound by the announced schema lands unchanged in
      the column announced for it, row by row. */
  lemma {:induction false} UnlistedParameterLands(
    k: Caster, b: Batch, table: seq<Field>, widths: seq<nat>, all: bool, fields: seq<Field>, r: Batch, i: nat)
    requires table != [] && Inferred(table, None, widths, all, |b.fields|) == Some(fields) && i < |fields|
    requires Valid(b) && OneRow(b, |table|) && Aligned(k, b, table, None) == Some(r)
    requires Distinct(Names(table)) && |table| < USIZE_LIMIT && BoundAs(b, fields)
    ensures var j := i % |table|;
            fields[i] == table[j] && CellAt(r, j, RowOf(i, |table|)) == Some(Param(b, i))
  {
    var w, names := |table|, Names(table);
    var j := i % w;
    hide Aligned, Positional, Lands, Valid, Param, Distinct;
    assert |fields| == |b.fields| && fields[i] == table[j] && fields == Cycled(table, |b.fields|);
    hide Inferred;
    NoListIsAllColumns(k, b, table);
    ModOnce(i, w);
    assert fields[j] == table[j];
    hide Cycled;
    var col := ResultColumn(k, b, table, names, r, j);
    OneParameter(k, b, names, table[j], col, fields, i);
  }

  // --- When a schema is announced ---

  /** The rows of VALUES are `rows` rows of `width` values. */
  predicate Rectangle(widths: seq<nat>, rows: int, width: int) {
    |widths| == rows > 0 && width > 0 && forall r :: 0 <= r < rows ==> widths[r] == width
  }

  /** The table has a column of that name, in any case. */
  predicate HasColumn(table: seq<Field>, name: string) {
    exists i :: 0 <= i < |table| && EqIgnoreCase(table[i].name, name)
  }

  lemma {:induction false} FoundAll(table: seq<Field>, names: seq<string>)
    ensures |FindAll(table, names)| == |names|
       <==> forall n :: n in names ==> HasColumn(table, n)
  {
    if names != [] {
      FoundAll(table, names[1..]);
      var f := FindField(table, names[0]);
      if f.Some? {
        var i :| 0 <= i < |table| && table[i] == f.value;
        assert EqIgnoreCase(table[i].name, names[0]);
      }
      assert f.Some? <==> HasColumn(table, names[0]);
      assert names == [names[0]] + names[1..];
      hide HasColumn, FindField;
    }
  }

  /** An INSERT of placeholders alone is announced exactly when it has the parameters that its rows
      hold, or one for each column when they are no rectangle, and the table has the columns. */
  lemma {:induction false} AnnouncedIff(
    table: seq<Field>, columns: Option<seq<string>>, widths: seq<nat>, all: bool, params: nat)
    requires table != [] && (columns.Some? ==> columns.value != [])
    ensures Inferred(table, columns, widths, all, params).Some?
       <==> && all
            && (columns.Some? ==> forall n :: n in columns.value ==> HasColumn(table, n))
            && (forall rows, width :: Rectangle(widths, rows, width) ==> params == rows * width)
            && ((forall rows, width :: !Rectangle(widths, rows, width)) ==>
                  params == if columns.Some? then |columns.value| else |table|)
  {
    if columns.Some? {
      FoundAll(table, columns.value);
    }
    ShapeIs(widths);
    hide FindAll, HasColumn, Rectangle, Shape;
    if Shape(widths).Some? {
      assert Rectangle(widths, Shape(widths).value.0, Shape(widths).value.1);
    }
  }

  lemma {:induction false} ShapeIs(widths: seq<nat>)
    ensures forall rows, width :: Rectangle(widths, rows, width)
              <==> Shape(widths).Some? && Shape(widths).value.0 == rows && Shape(widths).value.1 == width
  {
  }
}
