/**
 What printing an Arrow type and reading it back yields, for every type.

 The printer writes VARCHAR for what it has no name for. The reader works on the upper-cased
 text: it takes the brackets of lists off the end, and tries its names in a fixed order. Lists
 come back as lists of nullable items called `item`, whatever they were called, and types that
 share a name come back as one of them. The lemmas follow the reader's order of tests, so that
 each printed form is shown to miss every test before its own.
 */
module TypeRoundTrip {
  import opened Ascii
  import opened Sequences
  import opened Wrappers
  import opened Numbers
  import opened TypeText

  /** Text that trimming leaves alone. */
  predicate Tight(s: string) {
    s != "" && !IsWhitespace(s[0]) && !IsWhitespace(s[|s| - 1])
  }

  predicate IsUpper(s: string) {
    forall i :: 0 <= i < |s| ==> UpperChar(s[i]) == s[i]
  }

  lemma {:induction false} UpperIdentity(s: string)
    requires IsUpper(s)
    ensures Upper(s) == s
  {
  }

  lemma {:induction false} UpperTwice(s: string)
    ensures IsUpper(Upper(s)) && Upper(Upper(s)) == Upper(s)
  {
    UpperIdentity(Upper(s));
  }

  lemma {:induction false} UpperTight(s: string)
    requires Tight(s)
    ensures Tight(Upper(s))
  {
  }

  lemma {:induction false} UpperConcat(a: string, b: string)
    ensures Upper(a + b) == Upper(a) + Upper(b)
  {
  }

  // --- Names ---

  /** A scalar name that reads as `t`. */
  lemma {:induction false} ReadsName(name: string, t: ArrowType)
    requires Tight(name) && IsUpper(name) && name[|name| - 1] != ']' && ReadName(name) == Some(t)
    ensures Read(name) == Read(Upper(name)) == Some(t)
  {
    hide ReadName;
    UpperIdentity(name);
    TrimIdentity(name);
  }

  lemma {:induction false} IntegerNames()
    ensures ReadInteger("TINYINT") == Some(Int8) && ReadInteger("SMALLINT") == Some(Int16)
    ensures ReadInteger("INTEGER") == Some(Int32) && ReadInteger("BIGINT") == Some(Int64)
    ensures ReadInteger("UTINYINT") == Some(UInt8) && ReadInteger("USMALLINT") == Some(UInt16)
    ensures ReadInteger("UINTEGER") == Some(UInt32) && ReadInteger("UBIGINT") == Some(UInt64)
  {
  }

  lemma {:induction false} PlainNames()
    ensures ReadPlain("VARCHAR") == Some(Utf8) && ReadPlain("BOOLEAN") == Some(Boolean)
    ensures ReadPlain("FLOAT") == Some(Float32) && ReadPlain("DOUBLE") == Some(Float64)
  {
  }

  lemma {:induction false} TimeNames()
    ensures ReadTime("DATE") == Some(Date32) && ReadTime("TIME") == Some(Time64(Microsecond))
    ensures ReadTime("TIMESTAMP") == Some(Timestamp(Microsecond, None))
    ensures ReadTime("TIMESTAMPTZ") == Some(Timestamp(Microsecond, Some("UTC")))
  {
  }

  lemma {:induction false} ByteNames()
    ensures ReadBytes("JSON") == Some(Utf8) && ReadBytes("BLOB") == Some(Binary) && ReadBytes("INTERVAL") == None
  {
  }

  /** The words of other families are not integer names. */
  lemma {:induction false} NotIntegers()
    ensures ReadInteger("VARCHAR") == ReadInteger("BOOLEAN") == ReadInteger("FLOAT") == ReadInteger("DOUBLE") == None
    ensures ReadInteger("JSON") == ReadInteger("BLOB") == ReadInteger("INTERVAL") == None
    ensures ReadInteger("DATE") == ReadInteger("TIME") == ReadInteger("TIMESTAMP") == ReadInteger("TIMESTAMPTZ") == None
  {
    NotInteger("VARCHAR");
    NotInteger("BOOLEAN");
    NotInteger("FLOAT");
    NotInteger("DOUBLE");
    NotInteger("JSON");
    NotInteger("BLOB");
    NotInteger("INTERVAL");
    NotInteger("DATE");
    NotInteger("TIME");
    NotInteger("TIMESTAMP");
    NotInteger("TIMESTAMPTZ");
    hide ReadInteger;
  }

  /** Integer names start with one of these, or with these letters. */
  lemma {:induction false} NotInteger(u: string)
    requires |u| > 3
    requires u[0] !in {'B', 'L', 'I', 'S', 'T', 'U'} || (u[0] == 'B' && u[1] != 'I')
             || (u[0] == 'I' && u[3] == 'E' && u[4..] != "GER")
             || (u[0] == 'T' && u[2] == 'M')
    ensures ReadInteger(u) == None
  {
  }

  lemma {:induction false} NotPlain()
    ensures ReadPlain("DATE") == ReadPlain("TIME") == ReadPlain("TIMESTAMP") == ReadPlain("TIMESTAMPTZ") == None
    ensures ReadPlain("JSON") == ReadPlain("BLOB") == ReadPlain("INTERVAL") == None
  {
  }

  lemma {:induction false} NotTimes()
    ensures ReadTime("JSON") == ReadTime("BLOB") == ReadTime("INTERVAL") == None
  {
  }

  lemma {:induction false} NoIntervalName()
    ensures ReadName("INTERVAL") == None
  {
    hide ReadInteger, ReadPlain, ReadTime, ReadBytes;
    NotIntegers();
    NotPlain();
    NotTimes();
    ByteNames();
  }

  lemma {:induction false} IntervalReads()
    ensures Read("INTERVAL") == Read(Upper("INTERVAL")) == Some(Interval(MonthDayNano))
  {
    var name := "INTERVAL";
    NoIntervalName();
    hide ReadName;
    UpperIdentity(name);
    TrimIdentity(name);
  }

  predicate Named(t: ArrowType) {
    !t.Interval? && !t.Decimal128? && !t.Decimal256? && !t.List? && !t.LargeList? && !t.Struct?
    && (t.Map? ==> Back(t).Some?)
  }

  lemma {:induction false} NamedName(t: ArrowType)
    requires Named(t)
    ensures ReadName(Print(t)) == Back(t) && Back(t).Some?
  {
    hide ReadInteger, ReadPlain, ReadTime, ReadBytes;
    IntegerNames();
    PlainNames();
    TimeNames();
    ByteNames();
    NotIntegers();
    NotPlain();
    NotTimes();
  }

  lemma {:induction false} NamedTight(t: ArrowType)
    requires Named(t)
    ensures Tight(Print(t)) && IsUpper(Print(t)) && Print(t)[|Print(t)| - 1] != ']'
  {
    NamedUpper(t);
    hide IsUpper;
  }

  lemma {:induction false} NamedUpper(t: ArrowType)
    requires Named(t)
    ensures IsUpper(Print(t))
  {
  }

  lemma {:induction false} NamedReads(t: ArrowType)
    requires Named(t)
    ensures Read(Print(t)) == Read(Upper(Print(t))) == Back(t)
  {
    NamedName(t);
    NamedTight(t);
    hide ReadName, Read, Print, Back, Named;
    ReadsName(Print(t), Back(t).value);
  }

  // --- Decimals ---

  lemma {:induction false} IndexAfter(a: string, c: char, b: string)
    requires c !in a
    ensures IndexOf(a + ([c] + b), c) == Some(|a|)
  {
    if a == "" {
      assert a + ([c] + b) == [c] + b;
    } else {
      ConsConcat(a, [c] + b);
      IndexAfter(a[1..], c, b);
    }
  }

  lemma {:induction false} IndexNone(a: string, c: char)
    requires c !in a
    ensures IndexOf(a, c) == None
  {
    if a != "" {
      IndexNone(a[1..], c);
    }
  }

  lemma {:induction false} TwoParts(a: string, b: string)
    requires ',' !in a && ',' !in b
    ensures SplitComma(a + ([','] + b)) == [a, b]
  {
    var s := a + ([','] + b);
    IndexAfter(a, ',', b);
    IndexNone(b, ',');
    assert s[..|a|] == a && s[|a| + 1..] == b;
  }

  predicate Numeral(s: string) {
    s != "" && forall i :: 0 <= i < |s| ==> IsDigit(s[i]) || s[i] == '-'
  }

  lemma {:induction false} NumeralFacts(s: string)
    requires Numeral(s)
    ensures Tight(s) && IsUpper(s) && Trim(s) == s && ',' !in s && ')' !in s && Trim(" " + s) == s
  {
    TrimIdentity(s);
    assert (" " + s)[1..] == s;
  }

  lemma {:induction false} NumeralParts(a: string, b: string)
    requires Numeral(a) && Numeral(b)
    ensures NonEmptyParts(SplitComma(a + ([','] + (" " + b)))) == [a, b]
  {
    NumeralFacts(a);
    NumeralFacts(b);
    TwoParts(a, " " + b);
    hide Trim, SplitComma;
    var parts := [a, " " + b];
    assert parts[1..] == [" " + b] && [" " + b][1..] == [];
    assert NonEmptyParts([" " + b]) == [b] + NonEmptyParts([]);
  }

  /** A decimal type with these numerals. */
  function DecimalText(a: string, b: string): string {
    "DECIMAL" + ("(" + (a + ("," + (" " + (b + ")")))))
  }

  lemma {:induction false} DecimalNumerals(a: string, b: string)
    requires Numeral(a) && Numeral(b)
    ensures PrecisionScale(DecimalText(a, b)) == (OrElse(ParseUsize(a), 18), OrElse(ParseUsize(b), 0))
  {
    hide Trim, SplitComma, NonEmptyParts, ParseUsize, IndexOf;
    var inner := a + ([','] + (" " + b));
    var spec := DecimalText(a, b);
    var tail := inner + ([')'] + "");
    assert spec == "DECIMAL" + (['('] + tail);
    IndexAfter("DECIMAL", '(', tail);
    assert spec[8..] == tail;
    NumeralFacts(a);
    NumeralFacts(b);
    IndexAfter(inner, ')', "");
    assert tail[..|inner|] == inner;
    InnerTight(a, b);
    NumeralParts(a, b);
  }

  lemma {:induction false} InnerTight(a: string, b: string)
    requires Numeral(a) && Numeral(b)
    ensures Trim(a + ([','] + (" " + b))) == a + ([','] + (" " + b))
  {
    var inner := a + ([','] + (" " + b));
    assert inner[0] == a[0] && inner[|inner| - 1] == b[|b| - 1];
    TrimIdentity(inner);
  }

  lemma {:induction false} DecimalShape(a: string, b: string)
    requires Numeral(a) && Numeral(b)
    ensures var s := DecimalText(a, b);
            Tight(s) && IsUpper(s) && s[|s| - 1] == ')' && StartsWith(s, "DECIMAL")
            && ReadName(s) == None && !StartsWith(s, "INTERVAL")
  {
    NumeralFacts(a);
    NumeralFacts(b);
    var s := DecimalText(a, b);
    hide Trim, Numeral;
    assert s == "DECIMAL(" + (a + (", " + (b + ")")));
    assert s[..8] == "DECIMAL(";
    assert s[..7] == "DECIMAL";
    DecimalNotName(s);
  }

  lemma {:induction false} DecimalNotName(s: string)
    requires |s| > 7 && s[..8] == "DECIMAL("
    ensures ReadName(s) == None && !StartsWith(s, "INTERVAL")
  {
    assert s[0] == 'D' && s[1] == 'E';
    assert ReadInteger(s) == None && ReadPlain(s) == None && ReadTime(s) == None && ReadBytes(s) == None by {
      hide ReadName;
    }
  }

  lemma {:induction false} DecimalReads(p: nat, s: int)
    requires p < 256 && -128 <= s < 128
    ensures Read(PrintDecimal(p, s)) == Read(Upper(PrintDecimal(p, s))) == Some(DecimalBack(p, s))
  {
    var a, b := Digits(p), Numbers.Signed(s);
    var text := PrintDecimal(p, s);
    DecimalShape(a, b);
    DecimalNumerals(a, b);
    ParseSigned(p);
    ParseSigned(s);
    hide PrecisionScale, ReadName, DecimalText, ParseUsize, Digits;
    assert text == DecimalText(a, b);
    UpperIdentity(text);
    TrimIdentity(text);
  }

  // --- Nesting ---

  lemma {:induction false} Enclosed(name: string, rest: string)
    requires name != "" && !IsWhitespace(name[0]) && rest != "" && rest[|rest| - 1] == ')'
    ensures Tight(name + ("(" + rest)) && (name + ("(" + rest))[|name| + |rest|] == ')'
  {
  }

  lemma {:induction false} PrintTight(t: ArrowType)
    ensures Tight(Print(t))
  {
    hide PrintFields, Digits;
    if Named(t) {
      NamedTight(t);
    } else {
      match t
      case List(field) => PrintTight(field.dataType);
      case LargeList(field) => PrintTight(field.dataType);
      case Struct(fields) => Enclosed("STRUCT", PrintFields(fields) + ")");
      case Map(field) => MapTight(field);
      case Decimal128(p, s) => DecimalShape(Digits(p), Numbers.Signed(s));
      case Decimal256(p, s) => DecimalShape(Digits(p), Numbers.Signed(s));
      case Interval(_) =>
    }
  }

  lemma {:induction false} MapTight(field: Field)
    requires Back(Map(field)).None?
    ensures Tight(Print(Map(field)))
  {
    var kv := field.dataType.fields;
    Enclosed("MAP", (Print(kv[0].dataType) + (", " + Print(kv[1].dataType))) + ")");
    hide Tight;
  }

  /** One level of `[]`. */
  lemma {:induction false} ReadsArray(s: string)
    requires Tight(s)
    ensures Read(s + "[]")
         == if Read(Upper(s)).None? then None else Some(List(Field("item", Read(Upper(s)).value, true)))
  {
    hide Read;
    TrimIdentity(s + "[]");
    UpperConcat(s, "[]");
    var u := Upper(s + "[]");
    assert u == Upper(s) + "[]";
    assert u[..|u| - 2] == Upper(s);
    assert Read(s + "[]") == ReadArray(u) by {
      ReadUnfold(s + "[]");
    }
  }

  function ReadArray(u: string): Option<ArrowType>
    requires IsArray(u)
  {
    var inner := Read(u[..|u| - 2]);
    if inner.None? then None else Some(List(Field("item", inner.value, true)))
  }

  lemma {:induction false} ReadUnfold(s: string)
    ensures Read(s) == if IsArray(Upper(Trim(s))) then ReadArray(Upper(Trim(s))) else ReadScalar(Upper(Trim(s)), s)
  {
    hide ReadScalar;
  }

  /** Structs and two-column maps print as names the reader does not know. */
  lemma {:induction false} UnknownReads(s: string)
    requires Tight(s) && s[|s| - 1] == ')'
    requires s[0] == 'M' || (|s| > 3 && s[0] == 'S' && s[3] == 'U')
    ensures Read(s) == Read(Upper(s)) == None
  {
    var u := Upper(s);
    UnknownName(u, s);
    UnknownName(u, u);
    TrimIdentity(s);
    UpperTight(s);
    TrimIdentity(u);
    UpperTwice(s);
    assert !IsArray(u);
    hide ReadScalar, Trim, Upper, Tight, IsUpper, IsArray;
  }

  lemma {:induction false} UnknownName(u: string, spec: string)
    requires u != "" && (u[0] == 'M' || (|u| > 3 && u[0] == 'S' && u[3] == 'U'))
    ensures ReadScalar(u, spec) == None
  {
    assert ReadName(u) == None by {
      UnknownWord(u);
    }
    hide ReadDecimal, ReadName;
  }

  lemma {:induction false} UnknownWord(u: string)
    requires u != "" && (u[0] == 'M' || (|u| > 3 && u[0] == 'S' && u[3] == 'U'))
    ensures ReadInteger(u) == None && ReadPlain(u) == None && ReadTime(u) == None && ReadBytes(u) == None
  {
    UnknownInteger(u);
    hide ReadInteger;
  }

  lemma {:induction false} UnknownInteger(u: string)
    requires u != "" && (u[0] == 'M' || (|u| > 3 && u[0] == 'S' && u[3] == 'U'))
    ensures ReadInteger(u) == None
  {
  }

  /** Printing and reading yields exactly `Back`, for every type. */
  lemma {:induction false} ReadBack(t: ArrowType)
    requires Representable(t)
    ensures Read(Print(t)) == Read(Upper(Print(t))) == Back(t)
    decreases t, 0
  {
    hide Read, Upper;
    if Named(t) {
      NamedReads(t);
    } else {
      match t
      case Interval(_) => IntervalReads();
      case Decimal128(p, s) => DecimalReads(p, s);
      case Decimal256(p, s) => DecimalReads(p, s);
      case List(field) => ListReads(field.dataType);
      case LargeList(field) => ListReads(field.dataType);
      case Struct(_) => StructReads(t);
      case Map(_) => StructReads(t);
    }
    hide Print, Back;
  }

  lemma {:induction false} StructReads(t: ArrowType)
    requires t.Struct? || (t.Map? && !Named(t))
    ensures Read(Print(t)) == Read(Upper(Print(t))) == Back(t)
  {
    PrintTight(t);
    hide Read, PrintFields;
    assert t.Struct? ==> Print(t)[..6] == "STRUCT" && Print(t)[3] == "STRUCT"[3];
    assert t.Map? ==> Print(t)[0] == 'M';
    UnknownReads(Print(t));
  }

  lemma {:induction false} ListReads(inner: ArrowType)
    requires Representable(inner)
    ensures Read(Print(inner) + "[]") == Read(Upper(Print(inner) + "[]"))
         == if Back(inner).None? then None else Some(List(Field("item", Back(inner).value, true)))
    decreases inner, 1
  {
    var s := Print(inner);
    ReadBack(inner);
    PrintTight(inner);
    hide Read, Print, Back, Tight, Upper, Representable;
    ReadsArray(s);
    UpperTight(s);
    UpperTwice(s);
    ReadsArray(Upper(s));
    UpperConcat(s, "[]");
    UpperIdentity("[]");
  }

  lemma {:induction false} FaithfulBack(t: ArrowType)
    ensures Back(t) == Some(t) <==> Faithful(t)
  {
    match t
    case List(field) => FaithfulBack(field.dataType);
    case _ =>
  }

  /** A printed type reads back as itself exactly when it is one of the faithful ones. */
  lemma {:induction false} RoundTripIff(t: ArrowType)
    requires Representable(t)
    ensures Read(Print(t)) == Some(t) <==> Faithful(t)
  {
    ReadBack(t);
    FaithfulBack(t);
  }

  // --- Names that mean the same ---

  /** A name of the table reads alike in any case and within blanks. */
  lemma {:induction false} ReadsAnyCase(spec: string)
    requires Tight(Trim(spec)) && !IsArray(Upper(Trim(spec))) && ReadName(Upper(Trim(spec))).Some?
    ensures Read(spec) == ReadName(Upper(Trim(spec)))
  {
    hide ReadName, Upper, Trim;
  }

  /** The synonyms of each integer name. */
  lemma {:induction false} IntegerSynonyms()
    ensures ReadInteger("INT8") == ReadInteger("LONG") == ReadInteger("BIGINT") == Some(Int64)
    ensures ReadInteger("INT") == ReadInteger("INT4") == ReadInteger("SIGNED") == ReadInteger("INTEGER") == Some(Int32)
    ensures ReadInteger("INT2") == ReadInteger("SHORT") == ReadInteger("SMALLINT") == Some(Int16)
    ensures ReadInteger("INT1") == ReadInteger("TINYINT") == Some(Int8)
  {
  }

  lemma {:induction false} PlainSynonyms()
    ensures ReadPlain("CHAR") == ReadPlain("BPCHAR") == ReadPlain("TEXT") == ReadPlain("STRING") == ReadPlain("VARCHAR")
    ensures ReadPlain("BOOL") == ReadPlain("LOGICAL") == ReadPlain("BOOLEAN")
    ensures ReadPlain("DOUBLE PRECISION") == ReadPlain("FLOAT8") == ReadPlain("DOUBLE")
    ensures ReadPlain("FLOAT4") == ReadPlain("REAL") == ReadPlain("FLOAT")
  {
  }

  lemma {:induction false} OtherSynonyms()
    ensures ReadTime("DATETIME") == ReadTime("TIMESTAMP")
    ensures ReadTime("TIMESTAMP WITH TIME ZONE") == ReadTime("TIMESTAMPTZ")
    ensures ReadBytes("BYTEA") == ReadBytes("BINARY") == ReadBytes("VARBINARY") == ReadBytes("BLOB")
    ensures ReadBytes("BIT") == ReadBytes("BITSTRING") == Some(Binary) && ReadBytes("UUID") == Some(FixedSizeBinary(16))
  {
  }

  /** The wide integers, which Arrow has no type for, read as the widest 128-bit decimal. */
  lemma {:induction false} WideIntegers(u: string, spec: string)
    requires u == "HUGEINT" || u == "UHUGEINT" || u == "BIGNUM"
    ensures ReadScalar(u, spec) == Some(Decimal128(38, 0))
  {
    WideIsNoName(u);
    hide ReadName;
    assert u[0] == 'H' || u[0] == 'U' || u[0] == 'B';
    assert "INTERVAL"[0] == 'I' && "DECIMAL"[0] == 'D' && "NUMERIC"[0] == 'N';
  }

  lemma {:induction false} WideIsNoName(u: string)
    requires u == "HUGEINT" || u == "UHUGEINT" || u == "BIGNUM"
    ensures ReadName(u) == None
  {
    hide ReadInteger, ReadPlain, ReadTime, ReadBytes;
    WideIsNoNumber(u);
    WideIsNoOther(u);
  }

  lemma {:induction false} WideIsNoNumber(u: string)
    requires u == "HUGEINT" || u == "UHUGEINT" || u == "BIGNUM"
    ensures ReadInteger(u) == None
  {
  }

  lemma {:induction false} WideIsNoOther(u: string)
    requires u == "HUGEINT" || u == "UHUGEINT" || u == "BIGNUM"
    ensures ReadPlain(u) == None && ReadTime(u) == None && ReadBytes(u) == None
  {
  }

  /** Decimals without a precision, or without a scale. */
  lemma {:induction false} DecimalDefaults(p: nat)
    requires p < USIZE_LIMIT
    ensures ReadDecimal("DECIMAL") == ReadDecimal("NUMERIC") == ReadDecimal("DECIMAL()") == Decimal128(18, 3)
    ensures ReadDecimal("DECIMAL(" + (Digits(p) + ")"))
         == if p <= 38 then Decimal128(p, 0) else Decimal256(Min(p, 76), 0)
  {
    hide PrecisionScale, Digits;
    WithoutPrecision("DECIMAL");
    WithoutPrecision("NUMERIC");
    EmptyBrackets();
    PrecisionAlone(p);
  }

  lemma {:induction false} WithoutPrecision(s: string)
    requires forall i :: 0 <= i < |s| ==> s[i] != '('
    ensures PrecisionScale(s) == (18, 3)
  {
    NoBracket(s);
  }

  lemma {:induction false} NoBracket(s: string)
    requires forall i :: 0 <= i < |s| ==> s[i] != '('
    ensures IndexOf(s, '(') == None
  {
    IndexNone(s, '(');
  }

  lemma {:induction false} EmptyBrackets()
    ensures PrecisionScale("DECIMAL()") == (18, 3)
  {
    var s := "DECIMAL" + (['('] + ")");
    assert s == "DECIMAL()";
    IndexAfter("DECIMAL", '(', ")");
    assert s[8..] == ")" && IndexOf(")", ')') == Some(0);
    assert Trim("") == "";
  }

  lemma {:induction false} PrecisionAlone(p: nat)
    requires p < USIZE_LIMIT
    ensures PrecisionScale("DECIMAL(" + (Digits(p) + ")")) == (p, 0)
  {
    var d := Digits(p);
    var s := "DECIMAL(" + (d + ")");
    assert s == "DECIMAL" + (['('] + (d + ")"));
    IndexAfter("DECIMAL", '(', d + ")");
    assert s[8..] == d + ")";
    assert d + ")" == d + ([')'] + "");
    IndexAfter(d, ')', "");
    assert (d + ")")[..|d|] == d;
    assert !IsWhitespace(d[0]) && !IsWhitespace(d[|d| - 1]);
    TrimIdentity(d);
    IndexNone(d, ',');
    ParseDigits(p);
    hide Digits, Trim, ParseUsize;
    assert SplitComma(d) == [d];
    assert NonEmptyParts([d]) == [d] by {
      assert [d][1..] == [] && NonEmptyParts([]) == [];
    }
  }

  // --- Nested types ---

  /** Texts with a separator between them. */
  function Separated(texts: seq<string>, sep: string): string {
    if texts == [] then "" else if |texts| == 1 then texts[0] else texts[0] + (sep + Separated(texts[1..], sep))
  }

  function FieldTexts(fields: seq<Field>): (texts: seq<string>)
    ensures |texts| == |fields|
  {
    seq(|fields|, i requires 0 <= i < |fields| => fields[i].name + (" " + Print(fields[i].dataType)))
  }

  /** A struct lists each field's name and then its type; a map its key type and then its value
      type; neither reads back. */
  lemma {:induction false} NestedTexts(fields: seq<Field>, map_: Field, key: Field, value: Field)
    requires map_.dataType == Struct([key, value])
    ensures Print(Struct(fields)) == "STRUCT(" + (Separated(FieldTexts(fields), ", ") + ")")
    ensures Print(Map(map_)) == "MAP(" + (Print(key.dataType) + (", " + (Print(value.dataType) + ")")))
  {
    FieldsText(fields);
    var k, v := Print(key.dataType), Print(value.dataType);
    assert Print(Struct(fields)) == "STRUCT" + ("(" + (PrintFields(fields) + ")"));
    assert Print(Map(map_)) == "MAP" + ("(" + ((k + (", " + v)) + ")"));
    hide Print;
    assert "STRUCT" + ("(" + (PrintFields(fields) + ")")) == "STRUCT(" + (PrintFields(fields) + ")");
    assert "MAP" + ("(" + ((k + (", " + v)) + ")")) == "MAP(" + (k + (", " + (v + ")")));
  }

  lemma {:induction false} FieldsText(fields: seq<Field>)
    ensures PrintFields(fields) == Separated(FieldTexts(fields), ", ")
  {
    if fields != [] {
      FieldsText(fields[1..]);
      var texts := FieldTexts(fields);
      hide Print;
      assert texts[1..] == FieldTexts(fields[1..]);
      assert texts[0] + "" == texts[0];
      if |fields| > 1 {
        ConcatAssoc(texts[0], ", ", PrintFields(fields[1..]));
      }
    }
  }
}
