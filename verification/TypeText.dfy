/** Arrow types printed as DuckDB type names, and DuckDB type names read as Arrow types. */
module TypeText {
  import opened Ascii
  import opened Wrappers
  import opened Numbers

  datatype TimeUnit = Second | Millisecond | Microsecond | Nanosecond
  datatype IntervalUnit = YearMonth | DayTime | MonthDayNano

  /** `Unlisted` stands for every type neither side names. */
  datatype ArrowType =
    | Boolean
    | Int8 | Int16 | Int32 | Int64
    | UInt8 | UInt16 | UInt32 | UInt64
    | Float32 | Float64
    | Utf8 | LargeUtf8
    | Binary | LargeBinary | FixedSizeBinary(size: nat)
    | Date32 | Date64
    | Time32(unit: TimeUnit) | Time64(unit: TimeUnit)
    | Timestamp(unit: TimeUnit, zone: Option<string>)
    | Interval(intervalUnit: IntervalUnit)
    | Decimal128(precision: nat, scale: int)
    | Decimal256(precision: nat, scale: int)
    | List(field: Field)
    | LargeList(field: Field)
    | Struct(fields: seq<Field>)
    | Map(field: Field)
    | Unlisted(id: nat)

  datatype Field = Field(name: string, dataType: ArrowType, nullable: bool)

  // --- The printer ---

  function Print(t: ArrowType): string {
    match t
    case Boolean => "BOOLEAN"
    case Int8 => "TINYINT"
    case Int16 => "SMALLINT"
    case Int32 => "INTEGER"
    case Int64 => "BIGINT"
    case UInt8 => "UTINYINT"
    case UInt16 => "USMALLINT"
    case UInt32 => "UINTEGER"
    case UInt64 => "UBIGINT"
    case Float32 => "FLOAT"
    case Float64 => "DOUBLE"
    case Utf8 => "VARCHAR"
    case LargeUtf8 => "VARCHAR"
    case Binary => "BLOB"
    case LargeBinary => "BLOB"
    case Date32 => "DATE"
    case Date64 => "DATE"
    case Time32(_) => "TIME"
    case Time64(_) => "TIME"
    case Timestamp(_, zone) => if zone.None? then "TIMESTAMP" else "TIMESTAMPTZ"
    case Interval(_) => "INTERVAL"
    case Decimal128(p, s) => PrintDecimal(p, s)
    case Decimal256(p, s) => PrintDecimal(p, s)
    case List(field) => Print(field.dataType) + "[]"
    case LargeList(field) => Print(field.dataType) + "[]"
    case Struct(fields) => "STRUCT" + ("(" + (PrintFields(fields) + ")"))
    case Map(field) =>
      if field.dataType.Struct? && |field.dataType.fields| == 2 then
        "MAP" + ("(" + ((Print(field.dataType.fields[0].dataType)
                         + (", " + Print(field.dataType.fields[1].dataType))) + ")"))
      else "JSON"
    case _ => "VARCHAR"
  }

  function PrintDecimal(p: nat, s: int): string {
    "DECIMAL" + ("(" + (Digits(p) + ("," + (" " + (Numbers.Signed(s) + ")")))))
  }

  function PrintFields(fields: seq<Field>): string {
    if fields == [] then ""
    else
      fields[0].name + (" " + Print(fields[0].dataType))
      + if |fields| == 1 then "" else ", " + PrintFields(fields[1..])
  }

  // --- The reader ---

  function IndexOf(s: string, c: char): Option<nat>
    ensures var r := IndexOf(s, c); r.Some? ==> r.value < |s| && s[r.value] == c
  {
    if s == "" then None
    else if s[0] == c then Some(0)
    else
      var r := IndexOf(s[1..], c);
      if r.None? then None else Some(r.value + 1)
  }

  function SplitComma(s: string): seq<string> {
    var at := IndexOf(s, ',');
    if at.None? then [s] else [s[..at.value]] + SplitComma(s[at.value + 1..])
  }

  /** The trimmed parts that are not empty. */
  function NonEmptyParts(parts: seq<string>): seq<string> {
    if parts == [] then []
    else (if Trim(parts[0]) == "" then [] else [Trim(parts[0])]) + NonEmptyParts(parts[1..])
  }

  function OrElse(o: Option<nat>, n: nat): nat {
    if o.Some? then o.value else n
  }

  function PrecisionScale(spec: string): (nat, nat) {
    var start := IndexOf(spec, '(');
    if start.None? then (18, 3)
    else
      var tail := spec[start.value + 1..];
      var inner := Trim(tail[..OrElse(IndexOf(tail, ')'), |tail|)]);
      if inner == "" then (18, 3)
      else
        var parts := NonEmptyParts(SplitComma(inner));
        (if |parts| > 0 then OrElse(ParseUsize(parts[0]), 18) else 18,
         if |parts| > 1 then OrElse(ParseUsize(parts[1]), 0) else 0)
  }

  function Min(a: nat, b: nat): nat {
    if a < b then a else b
  }

  function ReadDecimal(spec: string): ArrowType {
    var (p, s) := PrecisionScale(spec);
    var precision := Min(p, 76);
    var scale := Min(s, precision);
    if precision <= 38 then Decimal128(precision, scale) else Decimal256(precision, scale)
  }

  predicate StartsWith(s: string, prefix: string) {
    prefix <= s
  }

  function ReadInteger(u: string): Option<ArrowType> {
    if u == "BIGINT" || u == "INT8" || u == "LONG" then Some(Int64)
    else if u == "INTEGER" || u == "INT" || u == "INT4" || u == "SIGNED" then Some(Int32)
    else if u == "SMALLINT" || u == "INT2" || u == "SHORT" then Some(Int16)
    else if u == "TINYINT" || u == "INT1" then Some(Int8)
    else if u == "UBIGINT" then Some(UInt64)
    else if u == "UINTEGER" then Some(UInt32)
    else if u == "USMALLINT" then Some(UInt16)
    else if u == "UTINYINT" then Some(UInt8)
    else None
  }

  function ReadPlain(u: string): Option<ArrowType> {
    if u == "VARCHAR" || u == "CHAR" || u == "BPCHAR" || u == "TEXT" || u == "STRING" then Some(Utf8)
    else if u == "BOOLEAN" || u == "BOOL" || u == "LOGICAL" then Some(Boolean)
    else if u == "DOUBLE" || u == "DOUBLE PRECISION" || u == "FLOAT8" then Some(Float64)
    else if u == "FLOAT" || u == "FLOAT4" || u == "REAL" then Some(Float32)
    else None
  }

  function ReadTime(u: string): Option<ArrowType> {
    if u == "DATE" then Some(Date32)
    else if u == "TIME" then Some(Time64(Microsecond))
    else if u == "TIMESTAMP" || u == "DATETIME" then Some(Timestamp(Microsecond, None))
    else if u == "TIMESTAMP WITH TIME ZONE" || u == "TIMESTAMPTZ" then Some(Timestamp(Microsecond, Some("UTC")))
    else None
  }

  function ReadBytes(u: string): Option<ArrowType> {
    if u == "BLOB" || u == "BYTEA" || u == "BINARY" || u == "VARBINARY" then Some(Binary)
    else if u == "UUID" then Some(FixedSizeBinary(16))
    else if u == "JSON" then Some(Utf8)
    else if u == "BIT" || u == "BITSTRING" then Some(Binary)
    else None
  }

  /** A scalar type name in upper case. */
  function ReadName(u: string): Option<ArrowType> {
    if ReadInteger(u).Some? then ReadInteger(u)
    else if ReadPlain(u).Some? then ReadPlain(u)
    else if ReadTime(u).Some? then ReadTime(u)
    else ReadBytes(u)
  }

  function ReadScalar(u: string, spec: string): Option<ArrowType> {
    if ReadName(u).Some? then ReadName(u)
    else if StartsWith(u, "INTERVAL") then Some(Interval(MonthDayNano))
    else if StartsWith(u, "DECIMAL") || StartsWith(u, "NUMERIC") then Some(ReadDecimal(spec))
    else if u == "BIGNUM" || u == "HUGEINT" || u == "UHUGEINT" then Some(Decimal128(38, 0))
    else None
  }

  predicate IsArray(u: string) {
    |u| >= 2 && u[|u| - 2] == '[' && u[|u| - 1] == ']'
  }

  lemma {:induction false} TrimLength(s: string)
    ensures |Trim(s)| <= |s|
  {
    TrimStartLength(s);
    TrimEndLength(TrimStart(s));
  }

  lemma {:induction false} TrimStartLength(s: string)
    ensures |TrimStart(s)| <= |s|
  {
    if s != "" && IsWhitespace(s[0]) {
      TrimStartLength(s[1..]);
    }
  }

  lemma {:induction false} TrimEndLength(s: string)
    ensures |TrimEnd(s)| <= |s|
  {
    if s != "" && IsWhitespace(s[|s| - 1]) {
      TrimEndLength(s[..|s| - 1]);
    }
  }

  /** Each `[]` makes the text shorter, so reading ends. */
  function Read(spec: string): Option<ArrowType>
    decreases |spec|
  {
    TrimLength(spec);
    var u := Upper(Trim(spec));
    if IsArray(u) then
      var inner := Read(u[..|u| - 2]);
      if inner.None? then None else Some(List(Field("item", inner.value, true)))
    else ReadScalar(u, spec)
  }

  // --- What comes back ---

  function DecimalBack(p: nat, s: int): ArrowType {
    var precision := Min(p, 76);
    var scale := Min(if s < 0 then 0 else s, precision);
    if precision <= 38 then Decimal128(precision, scale) else Decimal256(precision, scale)
  }

  /** The type that printing and reading yields, if any. */
  function Back(t: ArrowType): Option<ArrowType> {
    match t
    case LargeUtf8 => Some(Utf8)
    case LargeBinary => Some(Binary)
    case FixedSizeBinary(_) => Some(Utf8)
    case Date64 => Some(Date32)
    case Time32(_) => Some(Time64(Microsecond))
    case Time64(_) => Some(Time64(Microsecond))
    case Timestamp(_, zone) => Some(Timestamp(Microsecond, if zone.None? then None else Some("UTC")))
    case Interval(_) => Some(Interval(MonthDayNano))
    case Decimal128(p, s) => Some(DecimalBack(p, s))
    case Decimal256(p, s) => Some(DecimalBack(p, s))
    case List(field) => ListBack(field)
    case LargeList(field) => ListBack(field)
    case Struct(_) => None
    case Map(field) => if field.dataType.Struct? && |field.dataType.fields| == 2 then None else Some(Utf8)
    case Unlisted(_) => Some(Utf8)
    case _ => Some(t)
  }

  function ListBack(field: Field): Option<ArrowType> {
    var inner := Back(field.dataType);
    if inner.None? then None else Some(List(Field("item", inner.value, true)))
  }

  /** The types that survive. */
  predicate Faithful(t: ArrowType) {
    match t
    case LargeUtf8 => false
    case LargeBinary => false
    case FixedSizeBinary(_) => false
    case Date64 => false
    case Time32(_) => false
    case Time64(unit) => unit.Microsecond?
    case Timestamp(unit, zone) => unit.Microsecond? && (zone.Some? ==> zone.value == "UTC")
    case Interval(unit) => unit.MonthDayNano?
    case Decimal128(p, s) => p <= 38 && 0 <= s <= p
    case Decimal256(p, s) => 39 <= p <= 76 && 0 <= s <= p
    case List(field) => field.name == "item" && field.nullable && Faithful(field.dataType)
    case LargeList(_) => false
    case Struct(_) => false
    case Map(_) => false
    case Unlisted(_) => false
    case _ => true
  }

  /** Printable precisions and scales: Arrow keeps them in 8 bits. */
  predicate Representable(t: ArrowType) {
    match t
    case Decimal128(p, s) => p < 256 && -128 <= s < 128
    case Decimal256(p, s) => p < 256 && -128 <= s < 128
    case List(field) => Representable(field.dataType)
    case LargeList(field) => Representable(field.dataType)
    case _ => true
  }
}
