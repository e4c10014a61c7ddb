/**
 A reader of SQL conditions with the usual precedence: OR, then AND, then NOT, then one
 comparison or test, then operands. It works on tokens, and knows nothing of the printer.
 */
module SqlReader {
  import opened Ascii
  import opened Tokens
  import opened Wrappers
  import opened Filters

  datatype Expr =
    | Column(name: string)
    | Literal(value: Value)
    | Compare(comparator: Comparator, left: Expr, right: Expr)
    | And(left: Expr, right: Expr)
    | Or(left: Expr, right: Expr)
    | Not(operand: Expr)
    | IsNull(operand: Expr)
    | In(operand: Expr, items: seq<Expr>)
    | Range(operand: Expr, lower: Expr, upper: Expr)
    | Like(insensitive: bool, operand: Expr, pattern: Expr)
    | Call(name: string, args: seq<Expr>)

  function Eval(db: Engine, row: Row, x: Expr): Value {
    match x
    case Column(name) => row(name)
    case Literal(value) => value
    case Compare(c, l, r) => db.compare(c, Eval(db, row, l), Eval(db, row, r))
    case And(l, r) => AndValue(Eval(db, row, l), Eval(db, row, r))
    case Or(l, r) => OrValue(Eval(db, row, l), Eval(db, row, r))
    case Not(o) => NotValue(Eval(db, row, o))
    case IsNull(o) => Truth(Eval(db, row, o).Null?)
    case In(o, items) => OneOf(db, Eval(db, row, o), EvalAll(db, row, items))
    case Range(o, l, u) => Within(db, Eval(db, row, o), Eval(db, row, l), Eval(db, row, u))
    case Like(insensitive, o, p) => db.like(insensitive, Eval(db, row, o), Eval(db, row, p))
    case Call(name, args) => db.call(name, EvalAll(db, row, args))
  }

  function EvalAll(db: Engine, row: Row, xs: seq<Expr>): seq<Value> {
    if xs == [] then [] else [Eval(db, row, xs[0])] + EvalAll(db, row, xs[1..])
  }

  // --- The reader ---

  function ComparatorOf(t: string): Option<Comparator> {
    if t == "=" then Some(Equal)
    else if t == "!=" then Some(NotEqual)
    else if t == "<" then Some(Less)
    else if t == ">" then Some(Greater)
    else if t == "<=" then Some(LessEqual)
    else if t == ">=" then Some(GreaterEqual)
    else None
  }

  /** The first token, or the empty one. */
  function Head(ts: seq<string>): string {
    if ts == [] then "" else ts[0]
  }

  function ReadOr(ts: seq<string>): (p: Option<(Expr, seq<string>)>)
    ensures p.Some? ==> |p.value.1| < |ts|
    decreases |ts|, 4
  {
    var l := ReadAnd(ts);
    if l.None? || Head(l.value.1) != "OR" then l
    else
      var r := ReadOr(l.value.1[1..]);
      if r.None? then None else Some((Or(l.value.0, r.value.0), r.value.1))
  }

  function ReadAnd(ts: seq<string>): (p: Option<(Expr, seq<string>)>)
    ensures p.Some? ==> |p.value.1| < |ts|
    decreases |ts|, 3
  {
    var l := ReadNot(ts);
    if l.None? || Head(l.value.1) != "AND" then l
    else
      var r := ReadAnd(l.value.1[1..]);
      if r.None? then None else Some((And(l.value.0, r.value.0), r.value.1))
  }

  function ReadNot(ts: seq<string>): (p: Option<(Expr, seq<string>)>)
    ensures p.Some? ==> |p.value.1| < |ts|
    decreases |ts|, 2
  {
    if Head(ts) != "NOT" then ReadTest(ts)
    else
      var o := ReadNot(ts[1..]);
      if o.None? then None else Some((Not(o.value.0), o.value.1))
  }

  function ReadTest(ts: seq<string>): (p: Option<(Expr, seq<string>)>)
    ensures p.Some? ==> |p.value.1| < |ts|
    decreases |ts|, 1
  {
    var o := ReadOperand(ts);
    if o.None? then None else ReadRest(o.value.0, o.value.1)
  }

  /** What may follow the first operand of a test. */
  function ReadRest(x: Expr, ts: seq<string>): (p: Option<(Expr, seq<string>)>)
    ensures p.Some? ==> |p.value.1| <= |ts|
    decreases |ts|, 5
  {
    if ComparatorOf(Head(ts)).Some? then
      var r := ReadOperand(ts[1..]);
      if r.None? then None else Some((Compare(ComparatorOf(ts[0]).value, x, r.value.0), r.value.1))
    else if Head(ts) == "IS" then
      if |ts| > 1 && ts[1] == "NULL" then Some((IsNull(x), ts[2..]))
      else if |ts| > 2 && ts[1] == "NOT" && ts[2] == "NULL" then Some((Not(IsNull(x)), ts[3..]))
      else None
    else if Head(ts) == "BETWEEN" then
      var l := ReadOperand(ts[1..]);
      if l.None? || Head(l.value.1) != "AND" then None
      else
        var u := ReadOperand(l.value.1[1..]);
        if u.None? then None else Some((Range(x, l.value.0, u.value.0), u.value.1))
    else if Head(ts) == "NOT" then
      var m := ReadMatch(x, ts[1..]);
      if m.None? then None else Some((Not(m.value.0), m.value.1))
    else if Head(ts) == "IN" || Head(ts) == "LIKE" || Head(ts) == "ILIKE" then ReadMatch(x, ts)
    else Some((x, ts))
  }

  function ReadMatch(x: Expr, ts: seq<string>): (p: Option<(Expr, seq<string>)>)
    ensures p.Some? ==> |p.value.1| <= |ts|
    decreases |ts|, 4
  {
    if Head(ts) == "LIKE" || Head(ts) == "ILIKE" then
      var r := ReadOperand(ts[1..]);
      if r.None? then None else Some((Like(ts[0] == "ILIKE", x, r.value.0), r.value.1))
    else if Head(ts) == "IN" && |ts| > 1 && ts[1] == "(" then
      var items := ReadList(ts[2..]);
      if items.None? then None else Some((In(x, items.value.0), items.value.1))
    else None
  }

  function ReadOperand(ts: seq<string>): (p: Option<(Expr, seq<string>)>)
    ensures p.Some? ==> |p.value.1| < |ts|
    decreases |ts|, 0
  {
    if ts == [] || !Closed(ts[0]) then None
    else if ts[0] == "(" then
      var inner := ReadOr(ts[1..]);
      if inner.None? || Head(inner.value.1) != ")" then None else Some((inner.value.0, inner.value.1[1..]))
    else if ts[0][0] == '"' then Some((Column(Unquote(ts[0])), ts[1..]))
    else if ts[0][0] == '\'' then Some((Literal(Text(Unquote(ts[0]))), ts[1..]))
    else if Upper(ts[0]) == "NULL" then Some((Literal(Null), ts[1..]))
    else if Upper(ts[0]) == "TRUE" || Upper(ts[0]) == "FALSE" then
      Some((Literal(Truth(Upper(ts[0]) == "TRUE")), ts[1..]))
    else if NumberText(ts[0]) then Some((Literal(Number(ts[0])), ts[1..]))
    else if !Name(ts[0]) || |ts| < 3 || ts[1] != "(" then None
    else if ts[2] == ")" then Some((Call(ts[0], []), ts[3..]))
    else
      var args := ReadList(ts[2..]);
      if args.None? then None else Some((Call(ts[0], args.value.0), args.value.1))
  }

  /** Conditions separated by commas, up to and with the closing parenthesis. */
  function ReadList(ts: seq<string>): (p: Option<(seq<Expr>, seq<string>)>)
    ensures p.Some? ==> |p.value.1| < |ts|
    decreases |ts|, 5
  {
    var first := ReadOr(ts);
    if first.None? then None
    else if Head(first.value.1) == ")" then Some(([first.value.0], first.value.1[1..]))
    else if Head(first.value.1) == "," then
      var rest := ReadList(first.value.1[1..]);
      if rest.None? then None else Some(([first.value.0] + rest.value.0, rest.value.1))
    else None
  }

  /** The condition a whole text stands for. */
  function ReadCondition(text: string): Option<Expr> {
    var p := ReadOr(Tokenize(text));
    if p.None? || p.value.1 != [] then None else Some(p.value.0)
  }
}
