/** Which column each placeholder outside INSERT is compared with. Each has a number. */
module Placeholders {
  import opened Wrappers
  import opened Batches
  import opened ParameterSchema

  /** Every `?` or `$n` carries a number: its own, or n. `Other` is any expression
      the collectors do not look into. */
  datatype Expr =
    | Placeholder(number: nat)
    | Identifier(name: string)
    | Compound(names: seq<string>)
    | Binary(left: Expr, right: Expr)
    | Range(operand: Expr, low: Expr, high: Expr)
    | InList(operand: Expr, list: seq<Expr>)
    | Nested(inner: Expr)
    | Cast(inner: Expr)
    | Other(children: seq<Expr>)

  /** One placeholder found, and the column inferred for it. */
  datatype Found = Found(number: nat, column: Option<string>)

  function ColumnName(e: Expr): Option<string> {
    match e
    case Identifier(name) => Some(name)
    case Compound(names) => if names == [] then None else Some(names[|names| - 1])
    case _ => None
  }

  // --- The collectors, as functions of the tree ---

  function WithColumn(e: Expr, column: Option<string>): seq<Found> {
    match e
    case Placeholder(number) => [Found(number, column)]
    case Nested(inner) => WithColumn(inner, column)
    case Cast(inner) => WithColumn(inner, column)
    case Binary(left, right) => WithColumn(left, column) + WithColumn(right, column)
    case Range(_, low, high) => WithColumn(low, column) + WithColumn(high, column)
    case InList(_, list) => WithColumnAll(list, column)
    case _ => []
  }

  function WithColumnAll(es: seq<Expr>, column: Option<string>): seq<Found> {
    if es == [] then [] else WithColumn(es[0], column) + WithColumnAll(es[1..], column)
  }

  /** The placeholders the other side of a comparison with a column names. */
  function Against(side: Expr, other: Expr): seq<Found> {
    if ColumnName(side).Some? then WithColumn(other, ColumnName(side)) else []
  }

  function Params(e: Expr): seq<Found> {
    match e
    case Binary(left, right) =>
      if Against(left, right) != [] then Against(left, right)
      else if Against(right, left) != [] then Against(right, left)
      else Params(left) + Params(right)
    case Range(operand, low, high) =>
      if ColumnName(operand).Some? then WithColumn(low, ColumnName(operand)) + WithColumn(high, ColumnName(operand))
      else Params(operand) + (Params(low) + Params(high))
    case InList(operand, list) =>
      if ColumnName(operand).Some? then WithColumnAll(list, ColumnName(operand))
      else Params(operand) + ParamsAll(list)
    case Nested(inner) => Params(inner)
    case Cast(inner) => Params(inner)
    case Placeholder(number) => [Found(number, None)]
    case _ => []
  }

  function ParamsAll(es: seq<Expr>): seq<Found> {
    if es == [] then [] else Params(es[0]) + ParamsAll(es[1..])
  }

  /** The collectors themselves: they push into one vector while they recurse. */
  class Collector {
    var out: seq<Found>

    constructor ()
      ensures out == []
    {
      out := [];
    }

    method CollectWithColumn(e: Expr, column: Option<string>)
      modifies this
      ensures out == old(out) + WithColumn(e, column)
      decreases e
    {
      match e
      case Placeholder(number) =>
        out := out + [Found(number, column)];
      case Nested(inner) =>
        CollectWithColumn(inner, column);
      case Cast(inner) =>
        CollectWithColumn(inner, column);
      case Binary(left, right) =>
        CollectWithColumn(left, column);
        CollectWithColumn(right, column);
      case Range(_, low, high) =>
        CollectWithColumn(low, column);
        CollectWithColumn(high, column);
      case InList(_, list) =>
        CollectListWithColumn(list, column);
      case _ =>
    }

    method CollectListWithColumn(list: seq<Expr>, column: Option<string>)
      modifies this
      ensures out == old(out) + WithColumnAll(list, column)
      decreases list
    {
      for i := 0 to |list|
        invariant out + WithColumnAll(list[i..], column) == old(out) + WithColumnAll(list, column)
      {
        assert list[i..][1..] == list[i + 1..];
        assert list[i] in list;
        CollectWithColumn(list[i], column);
      }
    }

    /** Whether the length of the vector changed tells whether anything was found. */
    method CollectAgainst(side: Expr, other: Expr) returns (found: bool)
      modifies this
      ensures out == old(out) + Against(side, other)
      ensures found <==> Against(side, other) != []
    {
      if ColumnName(side).None? {
        return false;
      }
      var before := |out|;
      CollectWithColumn(other, ColumnName(side));
      return |out| != before;
    }

    method CollectListParams(list: seq<Expr>)
      modifies this
      ensures out == old(out) + ParamsAll(list)
      decreases list
    {
      for i := 0 to |list|
        invariant out + ParamsAll(list[i..]) == old(out) + ParamsAll(list)
      {
        assert list[i..][1..] == list[i + 1..];
        assert list[i] in list;
        CollectParams(list[i]);
      }
    }

    method CollectParams(e: Expr)
      modifies this
      ensures out == old(out) + Params(e)
      decreases e
    {
      hide Against, WithColumn, WithColumnAll, ParamsAll;
      match e
      case Binary(left, right) =>
        var done := CollectAgainst(left, right);
        if done {
          return;
        }
        done := CollectAgainst(right, left);
        if done {
          return;
        }
        CollectParams(left);
        CollectParams(right);
      case Range(operand, low, high) =>
        if ColumnName(operand).Some? {
          CollectWithColumn(low, ColumnName(operand));
          CollectWithColumn(high, ColumnName(operand));
        } else {
          CollectParams(operand);
          CollectParams(low);
          CollectParams(high);
        }
      case InList(operand, list) =>
        if ColumnName(operand).Some? {
          CollectListWithColumn(list, ColumnName(operand));
        } else {
          CollectParams(operand);
          CollectListParams(list);
        }
      case Nested(inner) =>
        CollectParams(inner);
      case Cast(inner) =>
        CollectParams(inner);
      case Placeholder(number) =>
        out := out + [Found(number, None)];
      case _ =>
    }
  }

  // --- All the placeholders there are ---

  /** Every placeholder of the tree, in the order of the text. */
  function Occurrences(e: Expr): seq<nat> {
    match e
    case Placeholder(number) => [number]
    case Identifier(_) => []
    case Compound(_) => []
    case Binary(left, right) => Occurrences(left) + Occurrences(right)
    case Range(operand, low, high) => Occurrences(operand) + (Occurrences(low) + Occurrences(high))
    case InList(operand, list) => Occurrences(operand) + OccurrencesAll(list)
    case Nested(inner) => Occurrences(inner)
    case Cast(inner) => Occurrences(inner)
    case Other(children) => OccurrencesAll(children)
  }

  function OccurrencesAll(es: seq<Expr>): seq<nat> {
    if es == [] then [] else Occurrences(es[0]) + OccurrencesAll(es[1..])
  }

  function Numbers(found: seq<Found>): (ns: seq<nat>)
    ensures |ns| == |found| && forall i :: 0 <= i < |ns| ==> ns[i] == found[i].number
  {
    seq(|found|, i requires 0 <= i < |found| => found[i].number)
  }

  /** `a` is what is left of `b` when some of its elements are struck out. */
  predicate Subsequence(a: seq<nat>, b: seq<nat>) {
    if a == [] then true
    else if b == [] then false
    else (a[0] == b[0] && Subsequence(a[1..], b[1..])) || Subsequence(a, b[1..])
  }

  lemma {:induction false} SubsequenceLength(a: seq<nat>, b: seq<nat>)
    requires Subsequence(a, b)
    ensures |a| <= |b|
    ensures |a| == |b| ==> a == b
  {
    if a != [] {
      if a[0] == b[0] && Subsequence(a[1..], b[1..]) {
        SubsequenceLength(a[1..], b[1..]);
        assert a == [a[0]] + a[1..] && b == [b[0]] + b[1..];
      } else {
        SubsequenceLength(a, b[1..]);
      }
    }
  }

  lemma {:induction false} SubsequenceConcat(a: seq<nat>, b: seq<nat>, c: seq<nat>, d: seq<nat>)
    requires Subsequence(a, b) && Subsequence(c, d)
    ensures Subsequence(a + c, b + d)
    decreases |b|
  {
    if b == [] {
      assert a + c == c && b + d == d;
    } else {
      assert (b + d)[1..] == b[1..] + d;
      if a == [] {
        SubsequenceConcat(a, b[1..], c, d);
      } else {
        assert (a + c)[1..] == a[1..] + c;
        if a[0] == b[0] && Subsequence(a[1..], b[1..]) {
          SubsequenceConcat(a[1..], b[1..], c, d);
        } else {
          SubsequenceConcat(a, b[1..], c, d);
        }
      }
    }
  }

  lemma {:induction false} NumbersConcat(a: seq<Found>, b: seq<Found>)
    ensures Numbers(a + b) == Numbers(a) + Numbers(b)
  {
  }

  /** Two collections side by side. */
  lemma {:induction false} Side(a: seq<Found>, b: seq<nat>, c: seq<Found>, d: seq<nat>)
    requires Subsequence(Numbers(a), b) && Subsequence(Numbers(c), d)
    ensures Subsequence(Numbers(a + c), b + d)
  {
    NumbersConcat(a, c);
    SubsequenceConcat(Numbers(a), b, Numbers(c), d);
  }

  lemma {:induction false} Skipped(b: seq<nat>, c: seq<Found>, d: seq<nat>)
    requires Subsequence(Numbers(c), d)
    ensures Subsequence(Numbers(c), b + d)
  {
    SubsequenceConcat([], b, Numbers(c), d);
    assert [] + Numbers(c) == Numbers(c);
  }

  lemma {:induction false} WithColumnInOrder(e: Expr, column: Option<string>)
    ensures Subsequence(Numbers(WithColumn(e, column)), Occurrences(e))
  {
    match e
    case Placeholder(number) =>
      assert Numbers([Found(number, column)]) == [number];
      assert [number][1..] == [];
    case Nested(inner) => WithColumnInOrder(inner, column);
    case Cast(inner) => WithColumnInOrder(inner, column);
    case Binary(left, right) =>
      WithColumnInOrder(left, column);
      WithColumnInOrder(right, column);
      Side(WithColumn(left, column), Occurrences(left), WithColumn(right, column), Occurrences(right));
    case Range(operand, low, high) =>
      WithColumnInOrder(low, column);
      WithColumnInOrder(high, column);
      Side(WithColumn(low, column), Occurrences(low), WithColumn(high, column), Occurrences(high));
      Skipped(Occurrences(operand), WithColumn(e, column), Occurrences(low) + Occurrences(high));
    case InList(operand, list) =>
      WithColumnAllInOrder(list, column);
      Skipped(Occurrences(operand), WithColumn(e, column), OccurrencesAll(list));
    case _ =>
      assert Numbers([]) == [];
  }

  lemma {:induction false} WithColumnAllInOrder(es: seq<Expr>, column: Option<string>)
    ensures Subsequence(Numbers(WithColumnAll(es, column)), OccurrencesAll(es))
  {
    if es != [] {
      WithColumnInOrder(es[0], column);
      WithColumnAllInOrder(es[1..], column);
      Side(WithColumn(es[0], column), Occurrences(es[0]), WithColumnAll(es[1..], column), OccurrencesAll(es[1..]));
    }
  }

  /** What is collected is the placeholders in the order of the text, none twice, some of
      them perhaps left out. */
  lemma {:induction false} ParamsInOrder(e: Expr)
    ensures Subsequence(Numbers(Params(e)), Occurrences(e))
  {
    match e
    case Binary(left, right) =>
      if Against(left, right) != [] {
        WithColumnInOrder(right, ColumnName(left));
        Skipped(Occurrences(left), Against(left, right), Occurrences(right));
      } else if Against(right, left) != [] {
        WithColumnInOrder(left, ColumnName(right));
        assert Occurrences(right) == [];
        assert Occurrences(left) + [] == Occurrences(left);
      } else {
        ParamsInOrder(left);
        ParamsInOrder(right);
        Side(Params(left), Occurrences(left), Params(right), Occurrences(right));
      }
    case Range(operand, low, high) =>
      if ColumnName(operand).Some? {
        var column := ColumnName(operand);
        WithColumnInOrder(low, column);
        WithColumnInOrder(high, column);
        Side(WithColumn(low, column), Occurrences(low), WithColumn(high, column), Occurrences(high));
        Skipped(Occurrences(operand), Params(e), Occurrences(low) + Occurrences(high));
      } else {
        ParamsInOrder(operand);
        ParamsInOrder(low);
        ParamsInOrder(high);
        Side(Params(low), Occurrences(low), Params(high), Occurrences(high));
        Side(Params(operand), Occurrences(operand), Params(low) + Params(high), Occurrences(low) + Occurrences(high));
      }
    case InList(operand, list) =>
      if ColumnName(operand).Some? {
        WithColumnAllInOrder(list, ColumnName(operand));
        Skipped(Occurrences(operand), Params(e), OccurrencesAll(list));
      } else {
        ParamsInOrder(operand);
        ParamsAllInOrder(list);
        Side(Params(operand), Occurrences(operand), ParamsAll(list), OccurrencesAll(list));
      }
    case Nested(inner) => ParamsInOrder(inner);
    case Cast(inner) => ParamsInOrder(inner);
    case Placeholder(number) =>
      assert Numbers([Found(number, None)]) == [number];
      assert [number][1..] == [];
    case _ =>
      assert Numbers([]) == [];
  }

  lemma {:induction false} ParamsAllInOrder(es: seq<Expr>)
    ensures Subsequence(Numbers(ParamsAll(es)), OccurrencesAll(es))
  {
    if es != [] {
      ParamsInOrder(es[0]);
      ParamsAllInOrder(es[1..]);
      Side(Params(es[0]), Occurrences(es[0]), ParamsAll(es[1..]), OccurrencesAll(es[1..]));
    }
  }

  // --- Statements ---

  /** The parts of a statement in the order of its text; `Unseen` ones are not looked into. */
  datatype Clause = Assignment(target: Option<string>, value: Expr) | Selection(condition: Expr) | Unseen(e: Expr)

  function Collected(clauses: seq<Clause>): seq<Found> {
    if clauses == [] then []
    else
      (match clauses[0]
       case Assignment(target, value) => WithColumn(value, target)
       case Selection(condition) => Params(condition)
       case Unseen(_) => [])
      + Collected(clauses[1..])
  }

  function AllOccurrences(clauses: seq<Clause>): seq<nat> {
    if clauses == [] then []
    else
      Occurrences(match clauses[0]
                  case Assignment(_, value) => value
                  case Selection(condition) => condition
                  case Unseen(e) => e)
      + AllOccurrences(clauses[1..])
  }

  lemma {:induction false} CollectedInOrder(clauses: seq<Clause>)
    ensures Subsequence(Numbers(Collected(clauses)), AllOccurrences(clauses))
  {
    if clauses != [] {
      CollectedInOrder(clauses[1..]);
      var rest, others := Collected(clauses[1..]), AllOccurrences(clauses[1..]);
      match clauses[0]
      case Assignment(target, value) =>
        WithColumnInOrder(value, target);
        Side(WithColumn(value, target), Occurrences(value), rest, others);
      case Selection(condition) =>
        ParamsInOrder(condition);
        Side(Params(condition), Occurrences(condition), rest, others);
      case Unseen(e) =>
        Skipped(Occurrences(e), rest, others);
        assert [] + rest == rest;
    }
  }

  function Columns(found: seq<Found>): Option<seq<string>> {
    if found == [] then Some([])
    else
      var rest := Columns(found[1..]);
      if found[0].column.None? || rest.None? then None else Some([found[0].column.value] + rest.value)
  }

  /** The announced schema: every placeholder found has a column, and the fields of those
      columns are as many as the statement has parameters. */
  function InferredParameters(table: seq<Field>, clauses: seq<Clause>, params: nat): Option<seq<Field>> {
    var columns := Columns(Collected(clauses));
    if columns.None? then None
    else
      var fields := FindAll(table, columns.value);
      if |fields| != params then None else Some(fields)
  }

  lemma {:induction false} ColumnsOfFound(found: seq<Found>)
    requires Columns(found).Some?
    ensures |Columns(found).value| == |found|
    ensures forall i :: 0 <= i < |found| ==> found[i].column == Some(Columns(found).value[i])
  {
    if found != [] {
      ColumnsOfFound(found[1..]);
    }
  }

  /** When the count check passes against the number of placeholders in the text, none was
      left out, and field `i` is that of the column inferred for the `i`-th placeholder. */
  lemma {:induction false} CountCheckAligns(table: seq<Field>, clauses: seq<Clause>)
    requires InferredParameters(table, clauses, |AllOccurrences(clauses)|).Some?
    ensures var fields := InferredParameters(table, clauses, |AllOccurrences(clauses)|).value;
            var found := Collected(clauses);
            && Numbers(found) == AllOccurrences(clauses)
            && |fields| == |found|
            && forall i :: 0 <= i < |found| ==>
                 && found[i].column.Some?
                 && FindField(table, found[i].column.value) == Some(fields[i])
  {
    var found := Collected(clauses);
    var columns := Columns(found).value;
    CollectedInOrder(clauses);
    SubsequenceLength(Numbers(found), AllOccurrences(clauses));
    ColumnsOfFound(found);
    FoundInOrder(table, columns);
  }

  /** Parameter `n` is announced with the field that its placeholder is compared with. */
  predicate AnnouncedByNumber(found: seq<Found>, fields: seq<Field>) {
    |fields| == |found| && forall i :: 0 <= i < |found| ==>
      1 <= found[i].number <= |fields| && fields[found[i].number - 1] == fields[i]
  }

  predicate NumberedInOrder(found: seq<Found>) {
    forall i :: 0 <= i < |found| ==> found[i].number == i + 1
  }

  /** With columns all different, the announced schema fits the parameters' numbers exactly
      when every column was found and the placeholders stand in the order of their numbers. */
  lemma {:induction false} NumberedAlignIff(table: seq<Field>, clauses: seq<Clause>, params: nat)
    requires InferredParameters(table, clauses, params).Some?
    requires var fields := InferredParameters(table, clauses, params).value;
             forall i, j :: 0 <= i < j < |fields| ==> fields[i] != fields[j]
    ensures AnnouncedByNumber(Collected(clauses), InferredParameters(table, clauses, params).value)
       <==> |Collected(clauses)| == params && NumberedInOrder(Collected(clauses))
  {
    hide Collected, FindAll;
    var found := Collected(clauses);
    var fields := InferredParameters(table, clauses, params).value;
    assert |fields| == params;
    hide InferredParameters;
    if AnnouncedByNumber(found, fields) {
      forall i | 0 <= i < |found|
        ensures found[i].number == i + 1
      {
        var n := found[i].number - 1;
        assert fields[n] == fields[i];
      }
    }
  }

  // --- Which column is inferred ---

  /** The column an expression names: its last part, however qualified. */
  lemma {:induction false} ColumnIs(e: Expr, c: string)
    ensures ColumnName(e) == Some(c)
       <==> e == Identifier(c) || exists q: seq<string> :: e == Compound(q + [c])
  {
    if e.Compound? && e.names != [] {
      var names := e.names;
      assert names == names[..|names| - 1] + [names[|names| - 1]];
    }
  }

  /** A placeholder on its own, in parentheses or cast. */
  predicate Bare(e: Expr, n: nat) {
    match e
    case Placeholder(number) => number == n
    case Nested(inner) => Bare(inner, n)
    case Cast(inner) => Bare(inner, n)
    case _ => false
  }

  lemma {:induction false} BareFound(e: Expr, n: nat, column: Option<string>)
    requires Bare(e, n)
    ensures WithColumn(e, column) == [Found(n, column)] && ColumnName(e).None?
  {
    match e
    case Nested(inner) => BareFound(inner, n, column);
    case Cast(inner) => BareFound(inner, n, column);
    case _ =>
  }

  /** Each shape in which a column meets a placeholder. */
  lemma {:induction false} ShapeColumns(e: Expr, c: string, p: Expr, n: nat, p': Expr, n': nat)
    requires (e == Identifier(c) || exists q: seq<string> :: e == Compound(q + [c])) && Bare(p, n) && Bare(p', n')
    ensures Params(Binary(e, p)) == [Found(n, Some(c))] && Params(Binary(p, e)) == [Found(n, Some(c))]
    ensures Params(Range(e, p, p')) == [Found(n, Some(c)), Found(n', Some(c))]
    ensures Params(InList(e, [p, p'])) == [Found(n, Some(c)), Found(n', Some(c))]
  {
    ColumnIs(e, c);
    BareFound(p, n, Some(c));
    BareFound(p', n', Some(c));
    assert [p, p'][1..] == [p'] && [p'][1..] == [];
    assert WithColumnAll([], Some(c)) == [];
    assert WithColumnAll([p'], Some(c)) == [Found(n', Some(c))] + [];
  }

  /** One level of a tree around a condition. */
  datatype Frame = LeftOf(right: Expr) | RightOf(left: Expr) | InParens | InCast

  function Wrap(f: Frame, e: Expr): Expr {
    match f
    case LeftOf(right) => Binary(e, right)
    case RightOf(left) => Binary(left, e)
    case InParens => Nested(e)
    case InCast => Cast(e)
  }

  /** The frames from the inside out. */
  function Plug(path: seq<Frame>, e: Expr): Expr {
    if path == [] then e else Plug(path[1..], Wrap(path[0], e))
  }

  /** No side of a connective is a column itself. */
  predicate Connects(f: Frame) {
    && (f.LeftOf? ==> ColumnName(f.right).None?)
    && (f.RightOf? ==> ColumnName(f.left).None?)
  }

  predicate AllConnect(path: seq<Frame>) {
    forall i :: 0 <= i < |path| ==> Connects(path[i])
  }

  /** What a condition gives stays together, whatever tree of connectives stands around it. */
  lemma {:induction false} FoundInTree(path: seq<Frame>, e: Expr) returns (before: seq<Found>, after: seq<Found>)
    requires AllConnect(path) && ColumnName(e).None?
    ensures Params(Plug(path, e)) == before + (Params(e) + after)
    decreases |path|
  {
    if path == [] {
      before, after := [], [];
      assert [] + (Params(e) + []) == Params(e);
    } else {
      var f := path[0];
      assert Connects(f);
      assert AllConnect(path[1..]) by {
        assert forall i :: 0 <= i < |path| - 1 ==> path[1..][i] == path[i + 1];
      }
      var b, a := FoundInTree(path[1..], Wrap(f, e));
      before := b + if f.RightOf? then Params(f.left) else [];
      after := (if f.LeftOf? then Params(f.right) else []) + a;
      assert Params(Wrap(f, e)) == (if f.RightOf? then Params(f.left) else [])
                                   + (Params(e) + if f.LeftOf? then Params(f.right) else []) by {
        assert [] + (Params(e) + []) == Params(e);
      }
      hide Params, Plug, Wrap;
      Regrouped(b, if f.RightOf? then Params(f.left) else [], Params(e), if f.LeftOf? then Params(f.right) else [], a);
    }
  }

  lemma {:induction false} Regrouped(b: seq<Found>, l: seq<Found>, m: seq<Found>, r: seq<Found>, a: seq<Found>)
    ensures b + ((l + (m + r)) + a) == (b + l) + (m + (r + a))
  {
  }

  /** A value in which the collector looks everywhere that a placeholder stands. */
  predicate Reached(e: Expr) {
    match e
    case Placeholder(_) => true
    case Nested(inner) => Reached(inner)
    case Cast(inner) => Reached(inner)
    case Binary(left, right) => Reached(left) && Reached(right)
    case Range(operand, low, high) => Occurrences(operand) == [] && Reached(low) && Reached(high)
    case InList(operand, list) => Occurrences(operand) == [] && AllReached(list)
    case _ => Occurrences(e) == []
  }

  predicate AllReached(es: seq<Expr>) {
    es == [] || (Reached(es[0]) && AllReached(es[1..]))
  }

  /** Then all its placeholders are collected, each with the column of the assignment. */
  lemma {:induction false} AllAreFound(e: Expr, column: Option<string>)
    requires Reached(e)
    ensures Numbers(WithColumn(e, column)) == Occurrences(e)
    ensures forall f :: f in WithColumn(e, column) ==> f.column == column
    decreases e, 0
  {
    match e
    case Nested(inner) => AllAreFound(inner, column);
    case Cast(inner) => AllAreFound(inner, column);
    case Binary(left, right) =>
      AllAreFound(left, column);
      AllAreFound(right, column);
      NumbersConcat(WithColumn(left, column), WithColumn(right, column));
    case Range(_, low, high) =>
      AllAreFound(low, column);
      AllAreFound(high, column);
      NumbersConcat(WithColumn(low, column), WithColumn(high, column));
    case InList(_, list) =>
      ListIsFound(list, column);
    case _ =>
      assert Numbers([]) == [];
  }

  lemma {:induction false} ListIsFound(es: seq<Expr>, column: Option<string>)
    requires AllReached(es)
    ensures Numbers(WithColumnAll(es, column)) == OccurrencesAll(es)
    ensures forall f :: f in WithColumnAll(es, column) ==> f.column == column
    decreases es, 1
  {
    if es != [] {
      AllAreFound(es[0], column);
      ListIsFound(es[1..], column);
      NumbersConcat(WithColumn(es[0], column), WithColumnAll(es[1..], column));
    } else {
      assert Numbers([]) == [];
    }
  }

  /** A schema needs a column for every placeholder that was found. */
  lemma {:induction false} ColumnsIff(found: seq<Found>)
    ensures Columns(found).Some? <==> forall i :: 0 <= i < |found| ==> found[i].column.Some?
  {
    if found != [] {
      ColumnsIff(found[1..]);
      assert forall i :: 1 <= i < |found| ==> found[i] == found[1..][i - 1];
    }
  }

  /** So a condition that is a placeholder itself, anywhere in a tree of connectives, leaves the
      statement without a schema. */
  lemma {:induction false} LonePlaceholder(table: seq<Field>, path: seq<Frame>, p: Expr, n: nat, params: nat)
    requires AllConnect(path) && Bare(p, n)
    ensures InferredParameters(table, [Selection(Plug(path, p))], params) == None
  {
    LoneParams(p, n);
    BareFound(p, n, None);
    var before, after := FoundInTree(path, p);
    var found := before + ([Found(n, None)] + after);
    var clauses := [Selection(Plug(path, p))];
    assert clauses[1..] == [] && Collected([]) == [];
    assert found + [] == found;
    hide Params, Plug;
    assert Collected(clauses) == found && found[|before|] == Found(n, None);
    ColumnsIff(found);
  }

  lemma {:induction false} LoneParams(p: Expr, n: nat)
    requires Bare(p, n)
    ensures Params(p) == [Found(n, None)]
  {
    match p
    case Nested(inner) => LoneParams(inner, n);
    case Cast(inner) => LoneParams(inner, n);
    case _ =>
  }

  // --- Numbers used again ---

  predicate NoneTwice(ns: seq<nat>) {
    ns == [] || (ns[0] !in ns[1..] && NoneTwice(ns[1..]))
  }

  /** The parameters the engine counts: a number used again is one parameter. */
  function Parameters(ns: seq<nat>): set<nat> {
    if ns == [] then {} else {ns[0]} + Parameters(ns[1..])
  }

  lemma {:induction false} ParametersCount(ns: seq<nat>)
    ensures |Parameters(ns)| <= |ns|
    ensures |Parameters(ns)| == |ns| <==> NoneTwice(ns)
    ensures forall n :: n in ns <==> n in Parameters(ns)
  {
    if ns != [] {
      var rest := ns[1..];
      ParametersCount(rest);
      assert ns == [ns[0]] + rest;
      if ns[0] in rest {
        assert Parameters(ns) == Parameters(rest);
      }
    }
  }

  /** When the count check passes against the parameters, every placeholder of the text was
      collected and has its own field exactly when no number is used twice. */
  lemma {:induction false} NoneSkippedIff(table: seq<Field>, clauses: seq<Clause>)
    requires InferredParameters(table, clauses, |Parameters(AllOccurrences(clauses))|).Some?
    ensures Numbers(Collected(clauses)) == AllOccurrences(clauses)
            && |InferredParameters(table, clauses, |Parameters(AllOccurrences(clauses))|).value| == |Collected(clauses)|
       <==> NoneTwice(AllOccurrences(clauses))
  {
    ParametersCount(AllOccurrences(clauses));
    if NoneTwice(AllOccurrences(clauses)) {
      CountCheckAligns(table, clauses);
    }
    hide Collected, AllOccurrences, Numbers, FindAll;
  }

  lemma {:induction false} TwoColumns(x: Found, y: Found)
    requires x.column.Some? && y.column.Some?
    ensures Columns([x, y]) == Some([x.column.value, y.column.value])
  {
    assert [x, y][1..] == [y] && [y][1..] == [];
    assert Columns([]) == Some([]);
    assert Columns([y]) == Some([y.column.value] + []);
    assert [y.column.value] + [] == [y.column.value];
    assert Columns([x, y][1..]) == Some([y.column.value]);
    assert [x.column.value] + [y.column.value] == [x.column.value, y.column.value];
  }

  /** Numbered placeholders out of order defeat it: the statement has two parameters, the
      check passes, and yet the field announced for parameter 1 is that of parameter 2. */
  lemma {:induction false} NumberedOutOfOrder(table: seq<Field>, a: string, b: string, fa: Field, fb: Field)
    requires FindField(table, a) == Some(fa) && FindField(table, b) == Some(fb)
    ensures var condition := Binary(Binary(Identifier(a), Placeholder(2)), Binary(Identifier(b), Placeholder(1)));
            && Collected([Selection(condition)]) == [Found(2, Some(a)), Found(1, Some(b))]
            && InferredParameters(table, [Selection(condition)], 2) == Some([fa, fb])
  {
    var left, right := Binary(Identifier(a), Placeholder(2)), Binary(Identifier(b), Placeholder(1));
    var found := [Found(2, Some(a)), Found(1, Some(b))];
    assert Params(left) == [Found(2, Some(a))] && Params(right) == [Found(1, Some(b))];
    assert Params(Binary(left, right)) == found;
    var clauses := [Selection(Binary(left, right))];
    assert clauses[1..] == [] && found + [] == found;
    assert found[1..] == [Found(1, Some(b))] && found[1..][1..] == [];
    TwoColumns(found[0], found[1]);
    assert [a, b][1..] == [b] && [b][1..] == [];
    hide FindField;
    assert FindAll(table, [a, b]) == [fa, fb];
  }

  /** A number used again hides a placeholder that was skipped: `a = $1 AND f($2) AND b = $1`
      has two parameters, the check passes, and parameter 2 is announced with the field of `b`,
      which it is never compared with. */
  lemma {:induction false} ReusedNumber(table: seq<Field>, a: string, b: string, fa: Field, fb: Field)
    requires FindField(table, a) == Some(fa) && FindField(table, b) == Some(fb)
    ensures var condition := Binary(Binary(Binary(Identifier(a), Placeholder(1)), Other([Placeholder(2)])),
                                    Binary(Identifier(b), Placeholder(1)));
            && AllOccurrences([Selection(condition)]) == [1, 2, 1]
            && Collected([Selection(condition)]) == [Found(1, Some(a)), Found(1, Some(b))]
            && InferredParameters(table, [Selection(condition)], 2) == Some([fa, fb])
  {
    var first, last := Binary(Identifier(a), Placeholder(1)), Binary(Identifier(b), Placeholder(1));
    var call := Other([Placeholder(2)]);
    var found := [Found(1, Some(a)), Found(1, Some(b))];
    assert Params(first) == [Found(1, Some(a))] && Params(last) == [Found(1, Some(b))] && Params(call) == [];
    assert Params(Binary(first, call)) == [Found(1, Some(a))] + [];
    assert Params(Binary(Binary(first, call), last)) == found;
    assert [Placeholder(2)][1..] == [] && Occurrences(call) == [2];
    assert Occurrences(first) == [] + [1] && Occurrences(last) == [] + [1];
    var clauses := [Selection(Binary(Binary(first, call), last))];
    assert clauses[1..] == [] && found + [] == found;
    assert Occurrences(Binary(first, call)) == [1] + [2];
    assert AllOccurrences(clauses[1..]) == [];
    assert AllOccurrences(clauses) == Occurrences(clauses[0].condition) + [];
    hide Params, Occurrences;
    TwoColumns(found[0], found[1]);
    assert [a, b][1..] == [b] && [b][1..] == [];
    hide FindField;
    assert FindAll(table, [a, b]) == [fa, fb];
  }
}
