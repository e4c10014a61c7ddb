/**
 Bound parameter batches: recognising positional field names, reshaping one wide row into
 many, and aligning the columns to the table. Every error is `None`.
 */
module Batches {
  import opened Wrappers
  import opened Numbers

  type TypeId = nat

  datatype Cell = Missing | Present(value: int)

  datatype Field = Field(name: string, dataType: TypeId, nullable: bool)

  datatype Column = Column(dataType: TypeId, cells: seq<Cell>)

  datatype Batch = Batch(fields: seq<Field>, columns: seq<Column>, rows: nat)

  predicate Fits(f: Field, c: Column, rows: nat) {
    c.dataType == f.dataType && |c.cells| == rows && (f.nullable || Missing !in c.cells)
  }

  /** What the constructor of a batch has checked. */
  ghost predicate Valid(b: Batch) {
    |b.columns| == |b.fields| && forall i :: 0 <= i < |b.fields| ==> Fits(b.fields[i], b.columns[i], b.rows)
  }

  predicate AllFit(fields: seq<Field>, columns: seq<Column>, rows: nat) {
    |columns| == |fields| && forall i :: 0 <= i < |fields| ==> Fits(fields[i], columns[i], rows)
  }

  /** A batch needs a column, and columns that fit their fields. */
  function TryNew(fields: seq<Field>, columns: seq<Column>): Option<Batch> {
    if columns == [] then None
    else
      var rows := |columns[0].cells|;
      if AllFit(fields, columns, rows) then Some(Batch(fields, columns, rows)) else None
  }

  /** The value of a parameter in a batch of one row. */
  function Param(b: Batch, i: nat): Cell {
    if i < |b.columns| && b.columns[i].cells != [] then b.columns[i].cells[0] else Missing
  }

  function ParamType(b: Batch, i: nat): TypeId {
    if i < |b.columns| then b.columns[i].dataType else 0
  }

  /** Which parameter of a wide row goes to row `row`, column `c`. */
  function Place(width: nat, row: nat, c: nat): nat {
    row * width + c
  }

  function RowCount(b: Batch, width: nat): nat
    requires 0 < width
  {
    |b.fields| / width
  }

  /** The casting kernel: which casts exist, and what they make of one cell. */
  datatype Caster = Caster(supports: (TypeId, TypeId) -> bool, convert: (TypeId, TypeId, Cell) -> Cell)

  function Converted(k: Caster, from: TypeId, to: TypeId, cell: Cell): Cell {
    if from == to then cell else k.convert(from, to, cell)
  }

  function CastColumn(k: Caster, c: Column, to: TypeId): Option<Column> {
    if c.dataType == to then Some(c)
    else if !k.supports(c.dataType, to) then None
    else
      Some(Column(to, seq(|c.cells|, i requires 0 <= i < |c.cells| => k.convert(c.dataType, to, c.cells[i]))))
  }

  function NullColumn(t: TypeId, rows: nat): Column {
    Column(t, seq(rows, i => Missing))
  }

  // --- Positional field names ---

  function WithoutDollar(name: string): string {
    if name != "" && name[0] == '$' then name[1..] else name
  }

  function Position(f: Field): Option<nat> {
    ParseUsize(WithoutDollar(f.name))
  }

  /** The fields count up by one, from zero or from one. */
  predicate CountsFrom(fields: seq<Field>, base: nat) {
    forall i :: 0 <= i < |fields| ==> Position(fields[i]) == Some(base + i)
  }

  predicate Positional(fields: seq<Field>) {
    fields != [] && (CountsFrom(fields, 0) || CountsFrom(fields, 1))
  }

  method HasPositionalFieldNames(fields: seq<Field>) returns (positional: bool)
    ensures positional == Positional(fields)
  {
    hide ParseUsize, WithoutDollar;
    if |fields| == 0 {
      return false;
    }
    var base := 0;
    for i := 0 to |fields|
      invariant i > 0 ==> base <= 1 && Position(fields[0]) == Some(base)
      invariant forall j :: 0 <= j < i ==> Position(fields[j]) == Some(base + j)
    {
      var value := ParseUsize(WithoutDollar(fields[i].name));
      if value.None? {
        return false;
      }
      if i == 0 {
        if value.value != 0 && value.value != 1 {
          return false;
        }
        base := value.value;
      }
      if value.value != base + i {
        return false;
      }
    }
    return true;
  }

  // --- Reshaping ---

  /** Column `c` of the reshaped batch: the values of every `width`-th parameter from `c`. */
  function Gathered(b: Batch, width: nat, c: nat): Column
    requires 0 < width
  {
    Column(ParamType(b, c), seq(RowCount(b, width), r requires 0 <= r => Param(b, Place(width, r, c))))
  }

  lemma {:induction false} PlaceInRange(total: nat, width: nat, r: nat, c: nat)
    requires 0 < width && total % width == 0 && r < total / width && c < width
    ensures r * width + c < total
  {
    var n := total / width;
    assert total == n * width;
    assert (r + 1) * width <= n * width;
  }

  /** The parameters of one column all have its type, or they cannot be concatenated. */
  ghost predicate Uniform(b: Batch, width: nat) {
    forall i :: 0 <= i < |b.fields| && 0 < width <= |b.fields| && |b.columns| == |b.fields| ==>
      b.columns[i].dataType == b.columns[i % width].dataType
  }

  function ReshapedField(b: Batch, c: nat): Field
    requires c < |b.fields|
  {
    Field(Digits(c + 1), b.fields[c].dataType, b.fields[c].nullable)
  }

  ghost function Reshaped(b: Batch, width: nat): Option<Batch>
    requires Valid(b) && 0 < width && b.fields != []
  {
    if |b.fields| % width != 0 || b.rows != 1 || !Uniform(b, width) then None
    else
      Fewer(|b.fields|, width);
      TryNew(seq(width, c requires 0 <= c < width => ReshapedField(b, c)),
             seq(width, c requires 0 <= c < width => Gathered(b, width, c)))
  }

  lemma {:induction false} Fewer(total: nat, width: nat)
    requires 0 < width && 0 < total && total % width == 0
    ensures width <= total && 0 < total / width
  {
  }

  method Reshape(b: Batch, width: nat) returns (r: Option<Batch>)
    requires Valid(b) && 0 < width && b.fields != []
    ensures r == Reshaped(b, width)
  {
    var total := |b.fields|;
    if total % width != 0 {
      return None;
    }
    var n := total / width;
    if b.rows != 1 {
      return None;
    }
    Fewer(total, width);
    var fields: seq<Field> := [];
    for c := 0 to width
      invariant |fields| == c
      invariant forall j :: 0 <= j < c ==> fields[j] == ReshapedField(b, j)
    {
      fields := fields + [Field(Digits(c + 1), b.fields[c].dataType, b.fields[c].nullable)];
    }
    var columns: seq<Column> := [];
    for c := 0 to width
      invariant |columns| == c
      invariant forall j :: 0 <= j < c ==> columns[j] == Gathered(b, width, j)
      invariant forall j, row :: 0 <= j < c && 0 <= row < n ==> SameType(b, width, row, j)
    {
      var cells: seq<Cell> := [];
      for row := 0 to n
        invariant |cells| == row
        invariant forall j :: 0 <= j < row ==> cells[j] == Gathered(b, width, c).cells[j]
        invariant forall j :: 0 <= j < row ==> SameType(b, width, j, c)
      {
        PlaceInRange(total, width, row, c);
        var source := b.columns[row * width + c];
        if source.dataType != b.columns[c].dataType {
          NotUniform(b, width, row, c);
          return None;
        }
        cells := cells + [source.cells[0]];
      }
      columns := columns + [Column(b.columns[c].dataType, cells)];
    }
    UniformByRows(b, width);
    assert fields == seq(width, c requires 0 <= c < width => ReshapedField(b, c));
    assert columns == seq(width, c requires 0 <= c < width => Gathered(b, width, c));
    r := TryNew(fields, columns);
  }

  ghost predicate SameType(b: Batch, width: nat, row: nat, c: nat) {
    row * width + c < |b.columns| && c < |b.columns|
    && b.columns[row * width + c].dataType == b.columns[c].dataType
  }

  lemma {:induction false} MulGrows(d: int, w: nat)
    requires w > 0
    ensures d >= 1 ==> d * w >= w
    ensures d <= -1 ==> d * w <= 0 - w
  {
    assert d * w == w + (d - 1) * w;
    assert d * w == (d + 1) * w - w;
  }

  lemma {:induction false} ModPlace(width: nat, row: nat, c: nat)
    requires c < width
    ensures (row * width + c) % width == c && (row * width + c) / width == row
  {
    var i := row * width + c;
    var d := i / width - row;
    assert i == (i / width) * width + i % width;
    assert d * width == c - i % width;
    MulGrows(d, width);
  }

  lemma {:induction false} NotUniform(b: Batch, width: nat, row: nat, c: nat)
    requires Valid(b) && c < width <= |b.fields| && row * width + c < |b.fields| && !SameType(b, width, row, c)
    ensures !Uniform(b, width)
  {
    ModPlace(width, row, c);
  }

  lemma {:induction false} UniformByRows(b: Batch, width: nat)
    requires Valid(b) && 0 < width <= |b.fields| && |b.fields| % width == 0
    requires forall c, row :: 0 <= c < width && 0 <= row < |b.fields| / width ==> SameType(b, width, row, c)
    ensures Uniform(b, width)
  {
    forall i | 0 <= i < |b.fields|
      ensures b.columns[i].dataType == b.columns[i % width].dataType
    {
      var row, c := i / width, i % width;
      assert i == row * width + c;
      assert row < |b.fields| / width;
      assert SameType(b, width, row, c);
    }
  }

  // --- Which column feeds which ---

  /** Later names win. */
  function ByOrder(names: seq<string>): (m: map<string, nat>)
    ensures forall n :: n in m ==> m[n] < |names|
  {
    if names == [] then map[]
    else
      var last := |names| - 1;
      ByOrder(names[..last])[names[last] := last]
  }

  function Names(fields: seq<Field>): (names: seq<string>)
    ensures |names| == |fields| && forall i :: 0 <= i < |names| ==> names[i] == fields[i].name
  {
    seq(|fields|, i requires 0 <= i < |fields| => fields[i].name)
  }

  function FirstNamed(fields: seq<Field>, name: string): (at: Option<nat>)
    ensures at.Some? ==> at.value < |fields| && fields[at.value].name == name
    ensures at.None? ==> name !in Names(fields)
  {
    if fields == [] then None
    else if fields[0].name == name then Some(0)
    else
      var at := FirstNamed(fields[1..], name);
      if at.None? then None else Some(at.value + 1)
  }

  function ByName(fields: seq<Field>, names: seq<string>): (m: Option<map<string, nat>>)
    ensures m.Some? ==> forall n :: n in m.value ==> m.value[n] < |fields|
  {
    if names == [] then Some(map[])
    else
      var last := |names| - 1;
      var before := ByName(fields, names[..last]);
      var at := FirstNamed(fields, names[last]);
      if before.None? || at.None? then None else Some(before.value[names[last] := at.value])
  }

  function Lookup(fields: seq<Field>, table: seq<Field>, names: Option<seq<string>>): (m: Option<map<string, nat>>)
    ensures m.Some? ==> forall n :: n in m.value ==> m.value[n] < |fields|
  {
    match names
    case Some(ns) =>
      if |fields| != |ns| then None
      else if Positional(fields) then Some(ByOrder(ns))
      else ByName(fields, ns)
    case None =>
      if !Positional(fields) then Some(ByOrder(Names(fields)))
      else if |fields| != |table| then None
      else Some(ByOrder(Names(table)))
  }

  lemma {:induction false} TakeOne<T>(s: seq<T>, i: nat)
    requires i < |s|
    ensures s[..i + 1][..i] == s[..i] && s[..i + 1][i] == s[i]
  {
  }

  method BuildLookup(fields: seq<Field>, table: seq<Field>, names: Option<seq<string>>)
    returns (found: Option<map<string, nat>>)
    ensures found == Lookup(fields, table, names)
  {
    hide Positional, FirstNamed;
    var m: map<string, nat> := map[];
    var positional := HasPositionalFieldNames(fields);
    if names.Some? {
      var ns := names.value;
      if |fields| != |ns| {
        return None;
      }
      if positional {
        for i := 0 to |ns|
          invariant m == ByOrder(ns[..i])
        {
          TakeOne(ns, i);
          m := m[ns[i] := i];
        }
        assert ns[..|ns|] == ns;
      } else {
        for i := 0 to |ns|
          invariant ByName(fields, ns[..i]) == Some(m)
        {
          TakeOne(ns, i);
          var at := FirstNamed(fields, ns[i]);
          if at.None? {
            ByNameFails(fields, ns, i + 1);
            return None;
          }
          m := m[ns[i] := at.value];
        }
        assert ns[..|ns|] == ns;
      }
      return Some(m);
    }
    if positional && |fields| != |table| {
      return None;
    }
    var source := if positional then table else fields;
    for i := 0 to |source|
      invariant m == ByOrder(Names(source)[..i])
    {
      TakeOne(Names(source), i);
      m := m[source[i].name := i];
    }
    assert Names(source)[..|source|] == Names(source);
    return Some(m);
  }

  lemma {:induction false} ByNameFails(fields: seq<Field>, names: seq<string>, i: nat)
    requires i <= |names| && ByName(fields, names[..i]).None?
    ensures ByName(fields, names).None?
    decreases |names| - i
  {
    if i == |names| {
      assert names[..i] == names;
    } else {
      TakeOne(names, i);
      ByNameFails(fields, names, i + 1);
    }
  }

  // --- Alignment ---

  function AlignedColumn(k: Caster, b: Batch, lookup: map<string, nat>, f: Field): Option<Column>
    requires forall n :: n in lookup ==> lookup[n] < |b.columns|
  {
    if f.name in lookup then CastColumn(k, b.columns[lookup[f.name]], f.dataType)
    else Some(NullColumn(f.dataType, b.rows))
  }

  function AlignedColumns(k: Caster, b: Batch, lookup: map<string, nat>, table: seq<Field>): (cs: Option<seq<Column>>)
    requires forall n :: n in lookup ==> lookup[n] < |b.columns|
    ensures cs.Some? ==> |cs.value| == |table|
  {
    if table == [] then Some([])
    else
      var last := |table| - 1;
      var before := AlignedColumns(k, b, lookup, table[..last]);
      var c := AlignedColumn(k, b, lookup, table[last]);
      if before.None? || c.None? then None else Some(before.value + [c.value])
  }

  predicate IsWideRow(b: Batch, width: nat) {
    Positional(b.fields) && |b.fields| > width && 0 < width && |b.fields| % width == 0 && b.rows == 1
  }

  function Width(table: seq<Field>, names: Option<seq<string>>): nat {
    if names.Some? then |names.value| else |table|
  }

  ghost function Used(b: Batch, width: nat): Option<Batch>
    requires Valid(b)
  {
    if IsWideRow(b, width) then Reshaped(b, width) else Some(b)
  }

  ghost function Aligned(k: Caster, b: Batch, table: seq<Field>, names: Option<seq<string>>): Option<Batch>
    requires Valid(b)
  {
    if b.rows == 0 && b.fields == [] then
      TryNew(table, seq(|table|, i requires 0 <= i < |table| => NullColumn(table[i].dataType, 0)))
    else
      var used := Used(b, Width(table, names));
      if used.None? then None
      else
        UsedValid(b, Width(table, names));
        var lookup := Lookup(used.value.fields, table, names);
        if lookup.None? then None
        else
          var columns := AlignedColumns(k, used.value, lookup.value, table);
          if columns.None? then None else TryNew(table, columns.value)
  }

  lemma {:induction false} UsedValid(b: Batch, width: nat)
    requires Valid(b) && Used(b, width).Some?
    ensures Valid(Used(b, width).value)
  {
  }

  method UseBatch(b: Batch, width: nat) returns (used: Option<Batch>)
    requires Valid(b)
    ensures used == Used(b, width)
  {
    var positional := HasPositionalFieldNames(b.fields);
    if positional && |b.fields| > width && 0 < width && |b.fields| % width == 0 && b.rows == 1 {
      used := Reshape(b, width);
    } else {
      used := Some(b);
    }
  }

  method AlignColumns(k: Caster, b: Batch, lookup: map<string, nat>, table: seq<Field>)
    returns (r: Option<seq<Column>>)
    requires forall n :: n in lookup ==> lookup[n] < |b.columns|
    ensures r == AlignedColumns(k, b, lookup, table)
  {
    var columns: seq<Column> := [];
    for i := 0 to |table|
      invariant AlignedColumns(k, b, lookup, table[..i]) == Some(columns)
    {
      TakeOne(table, i);
      var c := AlignedColumn(k, b, lookup, table[i]);
      if c.None? {
        ColumnsFail(k, b, lookup, table, i + 1);
        return None;
      }
      columns := columns + [c.value];
    }
    assert table[..|table|] == table;
    return Some(columns);
  }

  method Align(k: Caster, b: Batch, table: seq<Field>, names: Option<seq<string>>) returns (r: Option<Batch>)
    requires Valid(b)
    ensures r == Aligned(k, b, table, names)
  {
    if b.rows == 0 && |b.fields| == 0 {
      return TryNew(table, seq(|table|, i requires 0 <= i < |table| => NullColumn(table[i].dataType, 0)));
    }
    hide Used, Positional, Lookup, AllFit, CastColumn, NullColumn, TryNew, AlignedColumns;
    var used := UseBatch(b, Width(table, names));
    if used.None? {
      return None;
    }
    UsedValid(b, Width(table, names));
    var lookup := BuildLookup(used.value.fields, table, names);
    if lookup.None? {
      return None;
    }
    var columns := AlignColumns(k, used.value, lookup.value, table);
    if columns.None? {
      return None;
    }
    r := TryNew(table, columns.value);
  }

  lemma {:induction false} ColumnsFail(k: Caster, b: Batch, lookup: map<string, nat>, table: seq<Field>, i: nat)
    requires forall n :: n in lookup ==> lookup[n] < |b.columns|
    requires i <= |table| && AlignedColumns(k, b, lookup, table[..i]).None?
    ensures AlignedColumns(k, b, lookup, table).None?
    decreases |table| - i
  {
    if i == |table| {
      assert table[..i] == table;
    } else {
      TakeOne(table, i);
      ColumnsFail(k, b, lookup, table, i + 1);
    }
  }
}
