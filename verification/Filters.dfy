/**
 Filter pushdown: bound filter expressions, printed as SQL text.

 A node the printer does not understand prints as nothing, and its parent goes on without
 it. Type tags and operator tags are enumerations; function names are text.
 */
module Filters {
  import opened Ascii
  import opened Tokens
  import opened Wrappers

  datatype Comparator = Equal | NotEqual | Less | Greater | LessEqual | GreaterEqual
  datatype ConjunctionTag = AndTag | OrTag | OtherConjunction
  datatype OperatorTag = IsNullTag | IsNotNullTag | InTag | NotInTag | NotTag | OtherOperator
  datatype TypeTag = NumericType | TextType | BooleanType | OtherType

  /** `Compound` stands for arrays and objects, given by their printed text. */
  datatype Json = JsonNull | JsonBool(b: bool) | JsonNumber(text: string) | JsonText(s: string) | Compound(text: string)

  /** A comparison whose tag is unknown has no comparator. */
  datatype Filter =
    | Comparison(comparator: Option<Comparator>, left: Filter, right: Filter)
    | ColumnRef(alias: string)
    | Constant(typeTag: TypeTag, isNull: bool, json: Json)
    | Conjunction(conjunction: ConjunctionTag, children: seq<Filter>)
    | Operator(operator: OperatorTag, children: seq<Filter>)
    | Between(input: Filter, lower: Filter, upper: Filter)
    | Function(name: string, children: seq<Filter>)
    | Cast(child: Filter)
    | Unknown(id: nat)

  // --- The printer ---

  function ComparatorText(c: Comparator): string {
    match c
    case Equal => "="
    case NotEqual => "!="
    case Less => "<"
    case Greater => ">"
    case LessEqual => "<="
    case GreaterEqual => ">="
  }

  function HexDigit(n: nat): char
    requires n < 16
  {
    if n < 10 then ('0' as int + n) as char else ('a' as int + n - 10) as char
  }

  /** One character inside a JSON string. */
  function JsonEscape(c: char): string {
    if c == '"' then "\\\""
    else if c == '\\' then "\\\\"
    else if c == '\n' then "\\n"
    else if c == '\r' then "\\r"
    else if c == '\t' then "\\t"
    else if c as int == 8 then "\\b"
    else if c as int == 12 then "\\f"
    else if c < ' ' then "\\u00" + [HexDigit(c as int / 16), HexDigit(c as int % 16)]
    else [c]
  }

  function JsonEscaped(s: string): string {
    if s == "" then "" else JsonEscape(s[0]) + JsonEscaped(s[1..])
  }

  function JsonPrint(j: Json): string {
    match j
    case JsonNull => "null"
    case JsonBool(b) => if b then "true" else "false"
    case JsonNumber(text) => text
    case JsonText(s) => "\"" + (JsonEscaped(s) + "\"")
    case Compound(text) => text
  }

  function ConstantText(t: TypeTag, isNull: bool, j: Json): string {
    if isNull then "NULL" else
    match t
    case NumericType => JsonPrint(j)
    case TextType => if j.JsonText? then Quote(j.s, '\'') else "'" + JsonPrint(j) + "'"
    case BooleanType => Upper(JsonPrint(j))
    case OtherType => JsonPrint(j)
  }

  datatype Likeness = Likeness(negated: bool, insensitive: bool)

  /** The pattern operators among the function names. */
  function LikenessOf(name: string): Option<Likeness> {
    var lower := Lower(name);
    if lower == "~~" || lower == "like" then Some(Likeness(false, false))
    else if lower == "!~~" || lower == "not_like" then Some(Likeness(true, false))
    else if lower == "~~~" || lower == "ilike" then Some(Likeness(false, true))
    else None
  }

  function LikeWord(k: Likeness): string {
    if k.negated then "NOT LIKE" else if k.insensitive then "ILIKE" else "LIKE"
  }

  datatype Joint = ByAnd | ByOr | ByComma
  {
    function Text(): string {
      if ByAnd? then " AND " else if ByOr? then " OR " else ", "
    }
  }

  function JoinParts(parts: seq<string>, joint: Joint): string {
    if parts == [] then ""
    else if |parts| == 1 then parts[0]
    else parts[0] + (joint.Text() + JoinParts(parts[1..], joint))
  }

  function Spaced(a: string, b: string): string {
    a + (" " + b)
  }

  function Parenthesized(s: string): string {
    "(" + (s + ")")
  }

  function Both(a: Option<string>, word: string, b: Option<string>): Option<string> {
    if a.None? || b.None? then None else Some(Spaced(a.value, Spaced(word, b.value)))
  }

  /** The printed expression, or None when it is dropped. */
  function Sql(e: Filter): Option<string> {
    match e
    case Comparison(comparator, left, right) =>
      if comparator.None? then None else Both(Sql(left), ComparatorText(comparator.value), Sql(right))
    case ColumnRef(alias) => Some("\"" + (alias + "\""))
    case Constant(t, isNull, json) => Some(ConstantText(t, isNull, json))
    case Conjunction(tag, children) =>
      var parts := Parts(children);
      if parts == [] || tag.OtherConjunction? then None
      else Some(Parenthesized(JoinParts(parts, if tag.AndTag? then ByAnd else ByOr)))
    case Operator(tag, children) =>
      if children == [] || tag.OtherOperator? then None
      else
        var first := Sql(children[0]);
        if first.None? then None
        else if tag.IsNullTag? then Some(Spaced(first.value, "IS NULL"))
        else if tag.IsNotNullTag? then Some(Spaced(first.value, "IS NOT NULL"))
        else if tag.NotTag? then Some(Spaced("NOT", Parenthesized(first.value)))
        else
          var values := Parts(children[1..]);
          if values == [] then None
          else
            var word := if tag.InTag? then "IN" else "NOT IN";
            Some(Spaced(first.value, Spaced(word, Parenthesized(JoinParts(values, ByComma)))))
    case Between(input, lower, upper) =>
      var bounds := Both(Sql(lower), "AND", Sql(upper));
      Both(Sql(input), "BETWEEN", bounds)
    case Function(name, children) =>
      if LikenessOf(name).Some? then
        if |children| < 2 then None
        else Both(Sql(children[0]), LikeWord(LikenessOf(name).value), Sql(children[1]))
      else
        var args := Parts(children);
        if args == [] && children != [] then None else Some(name + Parenthesized(JoinParts(args, ByComma)))
    case Cast(child) => Sql(child)
    case Unknown(_) => None
  }

  /** The printed children, those that print as nothing left out. */
  function Parts(children: seq<Filter>): seq<string> {
    if children == [] then []
    else (if Sql(children[0]).Some? then [Sql(children[0]).value] else []) + Parts(children[1..])
  }

  /** The WHERE clause of a list of filters. */
  function WhereClause(filters: seq<Filter>): Option<string> {
    if Parts(filters) == [] then None else Some(JoinParts(Parts(filters), ByAnd))
  }

  // --- What a filter means ---

  datatype Value = Null | Truth(b: bool) | Number(text: string) | Text(s: string) | Opaque(id: nat)

  datatype Tri = True | False | Unsure

  function ToTri(v: Value): Tri {
    if v.Truth? then (if v.b then True else False) else Unsure
  }

  function FromTri(t: Tri): Value {
    if t.Unsure? then Null else Truth(t.True?)
  }

  function AndValue(a: Value, b: Value): Value {
    FromTri(if ToTri(a).False? || ToTri(b).False? then False
            else if ToTri(a).True? && ToTri(b).True? then True else Unsure)
  }

  function OrValue(a: Value, b: Value): Value {
    FromTri(if ToTri(a).True? || ToTri(b).True? then True
            else if ToTri(a).False? && ToTri(b).False? then False else Unsure)
  }

  function NotValue(a: Value): Value {
    FromTri(if ToTri(a).True? then False else if ToTri(a).False? then True else Unsure)
  }

  /** What the database makes of values; its comparisons, patterns and functions are any. */
  datatype Engine = Engine(
    compare: (Comparator, Value, Value) -> Value,
    like: (bool, Value, Value) -> Value,
    call: (string, seq<Value>) -> Value,
    typed: (TypeTag, Json) -> Value,
    other: Filter -> Value)

  type Row = string -> Value

  function AllOf(values: seq<Value>): Value {
    if values == [] then Truth(true)
    else if |values| == 1 then values[0]
    else AndValue(values[0], AllOf(values[1..]))
  }

  function AnyOf(values: seq<Value>): Value {
    if values == [] then Truth(false)
    else if |values| == 1 then values[0]
    else OrValue(values[0], AnyOf(values[1..]))
  }

  function OneOf(db: Engine, v: Value, items: seq<Value>): Value {
    if items == [] then Truth(false)
    else if |items| == 1 then db.compare(Equal, v, items[0])
    else OrValue(db.compare(Equal, v, items[0]), OneOf(db, v, items[1..]))
  }

  function Within(db: Engine, v: Value, lower: Value, upper: Value): Value {
    AndValue(db.compare(GreaterEqual, v, lower), db.compare(LessEqual, v, upper))
  }

  function Signed(negated: bool, v: Value): Value {
    if negated then NotValue(v) else v
  }

  function ConstantValue(db: Engine, t: TypeTag, isNull: bool, j: Json): Value {
    if isNull then Null
    else if t.TextType? && j.JsonText? then Text(j.s)
    else if t.BooleanType? && j.JsonBool? then Truth(j.b)
    else if (t.NumericType? || t.OtherType?) && j.JsonNumber? then Number(j.text)
    else db.typed(t, j)
  }

  /** The lower-cased name is one of the two. */
  predicate Named(name: string, operator: string, word: string) {
    Lower(name) == operator || Lower(name) == word
  }

  /** The names of LIKE, NOT LIKE and ILIKE. */
  predicate Pattern(name: string) {
    Named(name, "~~", "like") || Named(name, "!~~", "not_like") || Named(name, "~~~", "ilike")
  }

  /** The filter's own meaning on a row, casts taken as the identity. */
  function Holds(db: Engine, row: Row, e: Filter): Value {
    match e
    case Comparison(comparator, left, right) =>
      if comparator.None? then db.other(e)
      else db.compare(comparator.value, Holds(db, row, left), Holds(db, row, right))
    case ColumnRef(alias) => row(alias)
    case Constant(t, isNull, json) => ConstantValue(db, t, isNull, json)
    case Conjunction(tag, children) =>
      (match tag
       case AndTag => AllOf(HoldsAll(db, row, children))
       case OrTag => AnyOf(HoldsAll(db, row, children))
       case OtherConjunction => db.other(e))
    case Operator(tag, children) =>
      if children == [] || tag.OtherOperator? then db.other(e)
      else
        var first := Holds(db, row, children[0]);
        if tag.IsNullTag? then Truth(first.Null?)
        else if tag.IsNotNullTag? then Truth(!first.Null?)
        else if tag.NotTag? then NotValue(first)
        else Signed(tag.NotInTag?, OneOf(db, first, HoldsAll(db, row, children[1..])))
    case Between(input, lower, upper) =>
      Within(db, Holds(db, row, input), Holds(db, row, lower), Holds(db, row, upper))
    case Function(name, children) =>
      if |children| == 2 && Named(name, "~~", "like") then
        db.like(false, Holds(db, row, children[0]), Holds(db, row, children[1]))
      else if |children| == 2 && Named(name, "!~~", "not_like") then
        NotValue(db.like(false, Holds(db, row, children[0]), Holds(db, row, children[1])))
      else if |children| == 2 && Named(name, "~~~", "ilike") then
        db.like(true, Holds(db, row, children[0]), Holds(db, row, children[1]))
      else db.call(name, HoldsAll(db, row, children))
    case Cast(child) => Holds(db, row, child)
    case Unknown(_) => db.other(e)
  }

  function HoldsAll(db: Engine, row: Row, children: seq<Filter>): (values: seq<Value>)
    ensures |values| == |children|
  {
    if children == [] then [] else [Holds(db, row, children[0])] + HoldsAll(db, row, children[1..])
  }

  // --- Filters that can be printed faithfully ---

  predicate NumberText(s: string) {
    s != "" && (IsDigit(s[0]) || s[0] == '-') && forall i :: 0 <= i < |s| ==> !IsDelimiter(s[i])
  }

  predicate Reserved(word: string) {
    || word == "AND" || word == "OR" || word == "NOT" || word == "IS" || word == "IN" || word == "NULL"
    || word == "TRUE" || word == "FALSE" || word == "LIKE" || word == "ILIKE" || word == "BETWEEN"
  }

  predicate NameChar(c: char) {
    IsAlphanumeric(c) || c == '_'
  }

  /** A plain function name that is not a keyword in any case. */
  predicate Name(s: string) {
    s != "" && !IsDigit(s[0]) && (forall i :: 0 <= i < |s| ==> NameChar(s[i])) && !Reserved(Upper(s))
  }

  predicate FaithfulConstant(t: TypeTag, isNull: bool, j: Json) {
    || isNull
    || (t.TextType? && j.JsonText?)
    || (t.BooleanType? && j.JsonBool?)
    || ((t.NumericType? || t.OtherType?) && j.JsonNumber? && NumberText(j.text))
  }

  /** Prints as one operand: no operator at its outside. */
  predicate Operand(e: Filter) {
    match e
    case ColumnRef(_) => true
    case Constant(_, _, _) => true
    case Conjunction(_, _) => true
    case Function(name, _) => !Pattern(name)
    case Cast(child) => Operand(child)
    case _ => false
  }

  /** Fully translatable, with operands where the printer puts no parentheses. */
  predicate Faithful(e: Filter) {
    match e
    case Comparison(comparator, left, right) =>
      comparator.Some? && Operand(left) && Operand(right) && Faithful(left) && Faithful(right)
    case ColumnRef(alias) => '"' !in alias
    case Constant(t, isNull, json) => FaithfulConstant(t, isNull, json)
    case Conjunction(tag, children) => !tag.OtherConjunction? && children != [] && FaithfulAll(children)
    case Operator(tag, children) =>
      && !tag.OtherOperator? && children != [] && FaithfulAll(children)
      && (tag.InTag? || tag.NotInTag? ==> |children| >= 2)
      && (!tag.InTag? && !tag.NotInTag? ==> |children| == 1)
      && (!tag.NotTag? ==> Operand(children[0]))
    case Between(input, lower, upper) =>
      && Operand(input) && Operand(lower) && Operand(upper)
      && Faithful(input) && Faithful(lower) && Faithful(upper)
    case Function(name, children) =>
      && FaithfulAll(children)
      && if Pattern(name) then |children| == 2 && Operand(children[0]) && Operand(children[1]) else Name(name)
    case Cast(child) => Faithful(child)
    case Unknown(_) => false
  }

  predicate FaithfulAll(children: seq<Filter>) {
    children == [] || (Faithful(children[0]) && FaithfulAll(children[1..]))
  }
}
