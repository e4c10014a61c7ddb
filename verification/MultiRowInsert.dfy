/** Where the bound parameters of a multi-row INSERT land, and when they are accepted. */
module MultiRowInsert {
  import opened Ascii
  import opened Wrappers
  import opened Numbers
  import opened Batches

  predicate Distinct(names: seq<string>) {
    forall i, j :: 0 <= i < j < |names| ==> names[i] != names[j]
  }

  lemma {:induction false} ByOrderDistinct(names: seq<string>)
    requires Distinct(names)
    ensures forall i :: 0 <= i < |names| ==> names[i] in ByOrder(names) && ByOrder(names)[names[i]] == i
    ensures forall n :: n in ByOrder(names) ==> n in names
  {
    if names != [] {
      ByOrderDistinct(names[..|names| - 1]);
    }
  }

  lemma {:induction false} ColumnsOneByOne(k: Caster, b: Batch, lookup: map<string, nat>, table: seq<Field>)
    requires forall n :: n in lookup ==> lookup[n] < |b.columns|
    ensures var cs := AlignedColumns(k, b, lookup, table);
            && (cs.Some? <==> forall j :: 0 <= j < |table| ==> AlignedColumn(k, b, lookup, table[j]).Some?)
            && (cs.Some? ==> forall j :: 0 <= j < |table| ==>
                  AlignedColumn(k, b, lookup, table[j]) == Some(cs.value[j]))
  {
    if table != [] {
      hide AlignedColumn;
      ColumnsOneByOne(k, b, lookup, table[..|table| - 1]);
    }
  }

  // --- The reshaped batch ---

  lemma {:induction false} ReshapedCounts(b: Batch, width: nat)
    requires 0 < width <= |b.fields| && width < USIZE_LIMIT
    ensures Positional(seq(width, c requires 0 <= c < width => ReshapedField(b, c)))
  {
    var fields := seq(width, c requires 0 <= c < width => ReshapedField(b, c));
    forall i | 0 <= i < width
      ensures Position(fields[i]) == Some(1 + i)
    {
      ParseDigits(i + 1);
    }
    assert CountsFrom(fields, 1);
  }

  /** A missing parameter is only allowed where the first one of its column is. */
  ghost predicate NullsAllowed(b: Batch, width: nat, c: nat)
    requires 0 < width && c < |b.fields|
  {
    b.fields[c].nullable || forall row :: 0 <= row < RowCount(b, width) ==> Param(b, Place(width, row, c)) != Missing
  }

  lemma {:induction false} GatheredFits(b: Batch, width: nat, c: nat)
    requires Valid(b) && 0 < width && c < |b.fields|
    ensures Fits(ReshapedField(b, c), Gathered(b, width, c), RowCount(b, width)) <==> NullsAllowed(b, width, c)
  {
    hide RowCount, Place, Param;
    var col := Gathered(b, width, c);
    assert Fits(b.fields[c], b.columns[c], b.rows);
    assert forall row :: 0 <= row < |col.cells| ==> col.cells[row] == Param(b, Place(width, row, c));
  }

  /** A wide row can be reshaped when the parameters of each column share their type and its
      leave to be missing. */
  ghost predicate Reshapable(b: Batch, width: nat) {
    Uniform(b, width) && forall c :: 0 <= c < width && c < |b.fields| ==> NullsAllowed(b, width, c)
  }

  lemma {:induction false} ReshapedIff(b: Batch, width: nat)
    requires Valid(b) && IsWideRow(b, width)
    ensures Reshaped(b, width).Some? <==> Reshapable(b, width)
    ensures Reshaped(b, width).Some? ==>
              var used := Reshaped(b, width).value;
              && used.rows == RowCount(b, width) && |used.columns| == width
              && used.fields == seq(width, c requires 0 <= c < width => ReshapedField(b, c))
              && forall c :: 0 <= c < width ==> used.columns[c] == Gathered(b, width, c)
  {
    Fewer(|b.fields|, width);
    if Uniform(b, width) {
      var fields := seq(width, c requires 0 <= c < width => ReshapedField(b, c));
      var columns := seq(width, c requires 0 <= c < width => Gathered(b, width, c));
      assert Reshaped(b, width) == TryNew(fields, columns);
      hide Reshaped, Uniform, Positional;
      forall c | 0 <= c < width
        ensures NullsAllowed(b, width, c) <==> Fits(fields[c], columns[c], RowCount(b, width))
      {
        GatheredFits(b, width, c);
      }
      hide NullsAllowed, Fits, ReshapedField, Valid, RowCount;
      assert |columns[0].cells| == RowCount(b, width);
    }
  }

  // --- Where parameters land ---

  /** What the parameter of a row and a named column becomes. */
  function Landed(k: Caster, b: Batch, width: nat, row: nat, c: nat, to: TypeId): Cell {
    Converted(k, ParamType(b, c), to, Param(b, Place(width, row, c)))
  }

  /** The column holds, row by row, the parameters of the name the field has in the statement,
      or nothing when the statement does not name it. */
  ghost predicate Lands(k: Caster, b: Batch, names: seq<string>, f: Field, col: Column)
    requires names != []
  {
    && |col.cells| == RowCount(b, |names|) && col.dataType == f.dataType
    && (forall c, row :: 0 <= c < |names| && names[c] == f.name && 0 <= row < |col.cells| ==>
          col.cells[row] == Landed(k, b, |names|, row, c, f.dataType))
    && (f.name !in names ==> forall row :: 0 <= row < |col.cells| ==> col.cells[row] == Missing)
  }

  /** The casting kernel has the casts a field needs. */
  predicate Castable(k: Caster, b: Batch, names: seq<string>, f: Field) {
    forall c :: 0 <= c < |names| && names[c] == f.name ==>
      ParamType(b, c) == f.dataType || k.supports(ParamType(b, c), f.dataType)
  }

  lemma {:induction false} CastLands(k: Caster, b: Batch, width: nat, c: nat, to: TypeId)
    requires 0 < width
    ensures var col := CastColumn(k, Gathered(b, width, c), to);
            && (col.Some? <==> ParamType(b, c) == to || k.supports(ParamType(b, c), to))
            && (col.Some? ==>
                  && |col.value.cells| == RowCount(b, width) && col.value.dataType == to
                  && forall row :: 0 <= row < RowCount(b, width) ==>
                       col.value.cells[row] == Landed(k, b, width, row, c, to))
  {
    hide RowCount, Place, Param, ParamType;
  }

  lemma {:induction false} ColumnLands(k: Caster, b: Batch, names: seq<string>, f: Field)
    requires Valid(b) && IsWideRow(b, |names|) && Distinct(names) && Reshaped(b, |names|).Some?
    ensures var used := Reshaped(b, |names|).value;
            && |used.columns| == |names|
            && var col := AlignedColumn(k, used, ByOrder(names), f);
               && (col.Some? ==> Lands(k, b, names, f, col.value))
               && (col.Some? <==> Castable(k, b, names, f))
  {
    var width := |names|;
    ReshapedIff(b, width);
    ByOrderDistinct(names);
    hide Reshaped, Positional, ByOrder, Valid, Uniform, Reshapable, NullsAllowed, ReshapedField, Param, RowCount, Place;
    hide CastColumn, Gathered, Landed, ParamType;
    var used := Reshaped(b, width).value;
    if f.name in names {
      var c := ByOrder(names)[f.name];
      assert names[c] == f.name;
      assert used.columns[c] == Gathered(b, width, c);
      assert forall i :: 0 <= i < |names| && names[i] == f.name ==> i == c;
      CastLands(k, b, width, c, f.dataType);
    }
  }

  // --- Main results ---

  /** What a caller can check before: the reshaping works, the casts exist, and no value that
      lands in a column that must not be null is missing. */
  ghost predicate Acceptable(k: Caster, b: Batch, table: seq<Field>, names: seq<string>)
    requires names != []
  {
    && table != []
    && Reshapable(b, |names|)
    && forall j :: 0 <= j < |table| ==>
         && Castable(k, b, names, table[j])
         && (!table[j].nullable ==> NoneMissing(k, b, names, table[j]))
  }

  ghost predicate NoneMissing(k: Caster, b: Batch, names: seq<string>, f: Field)
    requires names != []
  {
    && f.name in names
    && forall c, row :: 0 <= c < |names| && names[c] == f.name && 0 <= row < RowCount(b, |names|) ==>
         Landed(k, b, |names|, row, c, f.dataType) != Missing
  }

  lemma {:induction false} LandedFits(k: Caster, b: Batch, names: seq<string>, f: Field, col: Column)
    requires names != [] && RowCount(b, |names|) > 0 && Lands(k, b, names, f, col)
    ensures Fits(f, col, RowCount(b, |names|)) <==> f.nullable || NoneMissing(k, b, names, f)
  {
    hide Landed, RowCount;
    if f.name !in names {
      assert col.cells[0] == Missing;
    } else if !f.nullable && !NoneMissing(k, b, names, f) {
      var c, row :| 0 <= c < |names| && names[c] == f.name && 0 <= row < RowCount(b, |names|)
                    && Landed(k, b, |names|, row, c, f.dataType) == Missing;
      assert col.cells[row] == Missing;
    } else if !f.nullable {
      var c :| 0 <= c < |names| && names[c] == f.name;
      assert forall row :: 0 <= row < |col.cells| ==> col.cells[row] == Landed(k, b, |names|, row, c, f.dataType);
    }
  }

  lemma {:induction false} WideLookup(b: Batch, table: seq<Field>, names: seq<string>)
    requires Valid(b) && IsWideRow(b, |names|) && |names| < USIZE_LIMIT && Reshaped(b, |names|).Some?
    ensures Lookup(Reshaped(b, |names|).value.fields, table, Some(names)) == Some(ByOrder(names))
  {
    ReshapedIff(b, |names|);
    ReshapedCounts(b, |names|);
  }

  /** All there is to know of one column of the result. */
  ghost predicate ColumnFacts(k: Caster, b: Batch, names: seq<string>, f: Field, col: Option<Column>)
    requires names != []
  {
    && (col.Some? <==> Castable(k, b, names, f))
    && (col.Some? ==> Lands(k, b, names, f, col.value))
    && (col.Some? ==> (Fits(f, col.value, RowCount(b, |names|)) <==> f.nullable || NoneMissing(k, b, names, f)))
  }

  lemma {:induction false} ColumnHasFacts(k: Caster, b: Batch, names: seq<string>, f: Field)
    requires Valid(b) && IsWideRow(b, |names|) && Distinct(names) && Reshaped(b, |names|).Some?
    ensures var used := Reshaped(b, |names|).value;
            && |used.columns| == |names|
            && ColumnFacts(k, b, names, f, AlignedColumn(k, used, ByOrder(names), f))
  {
    assert RowCount(b, |names|) > 0 by {
      Fewer(|b.fields|, |names|);
    }
    ColumnLands(k, b, names, f);
    var col := AlignedColumn(k, Reshaped(b, |names|).value, ByOrder(names), f);
    hide Valid, IsWideRow, RowCount, Uniform;
    hide Reshaped, Positional, AlignedColumn, ByOrder, Castable, Lands, NoneMissing, Fits;
    if col.Some? {
      LandedFits(k, b, names, f, col.value);
    }
  }

  /** A wide positional row: the result has the table's fields and one row for every |names|
      parameters, each parameter lands in its row of the column it names, and unnamed columns
      are null. It is accepted exactly when `Acceptable`. */
  lemma {:induction false} ParametersLand(k: Caster, b: Batch, table: seq<Field>, names: seq<string>)
    requires Valid(b) && IsWideRow(b, |names|) && Distinct(names) && |names| < USIZE_LIMIT
    ensures Aligned(k, b, table, Some(names)).Some? <==> Acceptable(k, b, table, names)
    ensures Aligned(k, b, table, Some(names)).Some? ==>
              var r := Aligned(k, b, table, Some(names)).value;
              && r.fields == table && r.rows == RowCount(b, |names|) && |r.columns| == |table|
              && forall j :: 0 <= j < |table| ==> Lands(k, b, names, table[j], r.columns[j])
  {
    var width := |names|;
    ReshapedIff(b, width);
    if Reshaped(b, width).Some? {
      var used := Reshaped(b, width).value;
      UsedValid(b, width);
      WideLookup(b, table, names);
      hide Positional, Reshapable, Castable, NoneMissing, ByOrder, Valid, AlignedColumn, Fits, Lands, ColumnFacts,
           Reshaped, Gathered;
      forall j | 0 <= j < |table|
        ensures ColumnFacts(k, b, names, table[j], AlignedColumn(k, used, ByOrder(names), table[j]))
      {
        ColumnHasFacts(k, b, names, table[j]);
      }
      ColumnsOneByOne(k, used, ByOrder(names), table);
      Assemble(k, b, used, table, names);
    }
  }

  /** Columns that each land are put together into the result. */
  lemma {:induction false} Assemble(k: Caster, b: Batch, used: Batch, table: seq<Field>, names: seq<string>)
    requires Valid(b) && IsWideRow(b, |names|) && Reshaped(b, |names|) == Some(used) && Valid(used)
    requires Lookup(used.fields, table, Some(names)) == Some(ByOrder(names))
    requires forall n :: n in ByOrder(names) ==> ByOrder(names)[n] < |used.columns|
    requires var cs := AlignedColumns(k, used, ByOrder(names), table);
             && (cs.Some? <==> forall j :: 0 <= j < |table| ==> AlignedColumn(k, used, ByOrder(names), table[j]).Some?)
             && (cs.Some? ==> forall j :: 0 <= j < |table| ==>
                   AlignedColumn(k, used, ByOrder(names), table[j]) == Some(cs.value[j]))
    requires forall j :: 0 <= j < |table| ==>
               ColumnFacts(k, b, names, table[j], AlignedColumn(k, used, ByOrder(names), table[j]))
    requires Reshapable(b, |names|)
    ensures Aligned(k, b, table, Some(names)).Some? <==> Acceptable(k, b, table, names)
    ensures Aligned(k, b, table, Some(names)).Some? ==>
              var r := Aligned(k, b, table, Some(names)).value;
              && r.fields == table && r.rows == RowCount(b, |names|) && |r.columns| == |table|
              && forall j :: 0 <= j < |table| ==> Lands(k, b, names, table[j], r.columns[j])
  {
    var cs := AlignedColumns(k, used, ByOrder(names), table);
    hide Reshaped, Positional, Reshapable, Castable, NoneMissing, ByOrder, Valid, AlignedColumn, Fits;
    hide AlignedColumns, Lookup;
    assert Aligned(k, b, table, Some(names)) == if cs.None? then None else TryNew(table, cs.value);
    if cs.Some? && table != [] {
      assert Lands(k, b, names, table[0], cs.value[0]);
      assert |cs.value[0].cells| == RowCount(b, |names|);
      hide Lands;
    }
  }

  // --- Batches with field names of their own ---

  /** The last field of that name. */
  predicate LastNamed(fields: seq<Field>, name: string, i: int) {
    0 <= i < |fields| && fields[i].name == name && forall k :: i < k < |fields| ==> fields[k].name != name
  }

  lemma {:induction false} ByOrderIs(names: seq<string>)
    ensures forall n :: n in ByOrder(names) <==> n in names
    ensures forall n :: n in ByOrder(names) ==>
              names[ByOrder(names)[n]] == n && forall k :: ByOrder(names)[n] < k < |names| ==> names[k] != n
  {
    if names != [] {
      var last := |names| - 1;
      ByOrderIs(names[..last]);
      assert forall k :: 0 <= k < last ==> names[..last][k] == names[k];
      assert names == names[..last] + [names[last]];
    }
  }

  /** Without positional names and without a column list, a table column takes the last field of
      its own name, row by row, and is null when there is none. */
  lemma {:induction false} NamedFieldsLand(k: Caster, b: Batch, table: seq<Field>, j: nat)
    requires Valid(b) && !Positional(b.fields) && b.fields != [] && j < |table|
    requires Aligned(k, b, table, None).Some?
    ensures var r := Aligned(k, b, table, None).value;
            && |r.columns| == |table|
            && (forall i :: LastNamed(b.fields, table[j].name, i) ==>
                  CastColumn(k, b.columns[i], table[j].dataType) == Some(r.columns[j]))
            && (table[j].name !in Names(b.fields) ==> r.columns[j] == NullColumn(table[j].dataType, b.rows))
  {
    var names := Names(b.fields);
    ByOrderIs(names);
    hide Positional, ByOrder, CastColumn, NullColumn;
    assert Lookup(b.fields, table, None) == Some(ByOrder(names));
    ColumnsOneByOne(k, b, ByOrder(names), table);
    var r := Aligned(k, b, table, None).value;
    assert AlignedColumn(k, b, ByOrder(names), table[j]) == Some(r.columns[j]);
    hide Aligned, AlignedColumns, Lookup, TryNew;
    forall i | LastNamed(b.fields, table[j].name, i)
      ensures CastColumn(k, b.columns[i], table[j].dataType) == Some(r.columns[j])
    {
      assert names[i] == table[j].name;
      var at := ByOrder(names)[table[j].name];
      assert b.fields[at].name == names[at];
      assert at == i;
    }
  }

  lemma {:induction false} FirstNamedIs(fields: seq<Field>, name: string)
    ensures FirstNamed(fields, name).None? <==> forall i :: 0 <= i < |fields| ==> fields[i].name != name
    ensures FirstNamed(fields, name).Some? ==> FirstOf(fields, name, FirstNamed(fields, name).value)
  {
    hide Names;
    if fields != [] && fields[0].name != name {
      FirstNamedIs(fields[1..], name);
      assert forall k :: 1 <= k < |fields| ==> fields[k] == fields[1..][k - 1];
    }
  }

  lemma {:induction false} InNames(fields: seq<Field>, name: string)
    ensures name in Names(fields) <==> exists i :: 0 <= i < |fields| && fields[i].name == name
  {
    var names := Names(fields);
    if i :| 0 <= i < |fields| && fields[i].name == name {
      assert names[i] == name;
    }
  }

  lemma {:induction false} FirstIsIn(fields: seq<Field>, name: string)
    ensures FirstNamed(fields, name).Some? <==> name in Names(fields)
  {
    FirstNamedIs(fields, name);
    InNames(fields, name);
    hide FirstNamed, Names, FirstOf;
    if FirstNamed(fields, name).Some? {
      FirstOfIs(fields, name, FirstNamed(fields, name).value);
    }
  }

  lemma {:induction false} FirstOfIs(fields: seq<Field>, name: string, i: nat)
    requires FirstOf(fields, name, i)
    ensures i < |fields| && fields[i].name == name
  {
  }

  lemma {:induction false} ByNameIs(fields: seq<Field>, names: seq<string>)
    ensures ByName(fields, names).Some? <==> forall n :: n in names ==> n in Names(fields)
    ensures ByName(fields, names).Some? ==>
              && (forall n :: n in ByName(fields, names).value <==> n in names)
              && forall n :: n in names ==> FirstNamed(fields, n) == Some(ByName(fields, names).value[n])
  {
    hide FirstNamed, Names, FirstOf;
    if names != [] {
      var last := |names| - 1;
      ByNameIs(fields, names[..last]);
      FirstIsIn(fields, names[last]);
      assert names == names[..last] + [names[last]];
    }
  }

  /** The first field of that name. */
  predicate FirstOf(fields: seq<Field>, name: string, i: int) {
    0 <= i < |fields| && fields[i].name == name && forall m :: 0 <= m < i ==> fields[m].name != name
  }

  /** With a column list, a table column that it names takes the first field of that name, and any
      other is null; the batch needs a field for every listed name, and no more. */
  lemma {:induction false} ListedFieldsLand(k: Caster, b: Batch, table: seq<Field>, names: seq<string>, j: nat)
    requires Valid(b) && !Positional(b.fields) && b.fields != [] && j < |table|
    ensures Lookup(b.fields, table, Some(names)).Some?
       <==> |names| == |b.fields| && forall n :: n in names ==> n in Names(b.fields)
    ensures Aligned(k, b, table, Some(names)).Some? ==>
              var r := Aligned(k, b, table, Some(names)).value;
              && |r.columns| == |table|
              && (forall i :: table[j].name in names && FirstOf(b.fields, table[j].name, i) ==>
                    CastColumn(k, b.columns[i], table[j].dataType) == Some(r.columns[j]))
              && (table[j].name !in names ==> r.columns[j] == NullColumn(table[j].dataType, b.rows))
  {
    ByNameIs(b.fields, names);
    hide Positional, ByName, CastColumn, NullColumn, Names;
    var lookup := Lookup(b.fields, table, Some(names));
    if Aligned(k, b, table, Some(names)).Some? {
      ColumnsOneByOne(k, b, lookup.value, table);
      var r := Aligned(k, b, table, Some(names)).value;
      assert AlignedColumn(k, b, lookup.value, table[j]) == Some(r.columns[j]);
      hide Aligned, AlignedColumns, TryNew;
      FirstNamedIs(b.fields, table[j].name);
      hide FirstNamed;
    }
  }

  // --- Which names are positional ---

  /** Names that count up from zero or one, with or without a dollar sign each. */
  lemma {:induction false} CountedIsPositional(fields: seq<Field>, base: nat)
    requires fields != [] && base <= 1 && base + |fields| <= USIZE_LIMIT
    requires forall i :: 0 <= i < |fields| ==>
               fields[i].name == Digits(base + i) || fields[i].name == "$" + Digits(base + i)
    ensures Positional(fields)
  {
    hide Digits, ParseUsize;
    forall i | 0 <= i < |fields|
      ensures Position(fields[i]) == Some(base + i)
    {
      PositionOf(fields[i], base + i);
    }
    hide Position;
    assert CountsFrom(fields, base);
  }

  lemma {:induction false} PositionOf(f: Field, n: nat)
    requires n < USIZE_LIMIT && (f.name == Digits(n) || f.name == "$" + Digits(n))
    ensures Position(f) == Some(n)
  {
    ParseDigits(n);
    hide ParseUsize;
    assert ("$" + Digits(n))[1..] == Digits(n);
    assert IsDigit(Digits(n)[0]);
  }
}
