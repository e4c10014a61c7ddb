/** Filter pushdown keeps the meaning of fully translatable filters. */
module FilterMeaning {
  import opened Ascii
  import opened Sequences
  import opened Tokens
  import opened Wrappers
  import opened Filters
  import opened FilterTokens
  import opened SqlReader

  // --- The condition a filter stands for ---

  function Negated(negated: bool, x: Expr): Expr {
    if negated then Not(x) else x
  }

  function Chain(xs: seq<Expr>, byAnd: bool): Expr {
    if xs == [] then Literal(Truth(byAnd))
    else if |xs| == 1 then xs[0]
    else if byAnd then And(xs[0], Chain(xs[1..], byAnd))
    else Or(xs[0], Chain(xs[1..], byAnd))
  }

  function ConstantLiteral(isNull: bool, j: Json): Value {
    if isNull then Null
    else if j.JsonText? then Text(j.s)
    else if j.JsonBool? then Truth(j.b)
    else if j.JsonNumber? then Number(j.text)
    else Null
  }

  function Meaning(e: Filter): Expr {
    match e
    case Comparison(comparator, left, right) =>
      if comparator.None? then Literal(Null) else Compare(comparator.value, Meaning(left), Meaning(right))
    case ColumnRef(alias) => Column(alias)
    case Constant(_, isNull, json) => Literal(ConstantLiteral(isNull, json))
    case Conjunction(tag, children) => Chain(Meanings(children), tag.AndTag?)
    case Operator(tag, children) =>
      if children == [] then Literal(Null)
      else
        var first := Meaning(children[0]);
        if tag.IsNullTag? then IsNull(first)
        else if tag.IsNotNullTag? then Not(IsNull(first))
        else if tag.NotTag? then Not(first)
        else Negated(tag.NotInTag?, In(first, Meanings(children[1..])))
    case Between(input, lower, upper) => Range(Meaning(input), Meaning(lower), Meaning(upper))
    case Function(name, children) =>
      if !Pattern(name) then Call(name, Meanings(children))
      else if |children| < 2 then Literal(Null)
      else if Named(name, "~~", "like") then Like(false, Meaning(children[0]), Meaning(children[1]))
      else if Named(name, "!~~", "not_like") then Not(Like(false, Meaning(children[0]), Meaning(children[1])))
      else Like(true, Meaning(children[0]), Meaning(children[1]))
    case Cast(child) => Meaning(child)
    case Unknown(_) => Literal(Null)
  }

  function Meanings(children: seq<Filter>): (xs: seq<Expr>)
    ensures |xs| == |children|
  {
    if children == [] then [] else [Meaning(children[0])] + Meanings(children[1..])
  }

  // --- It has the filter's value ---

  lemma {:induction false} ChainValue(db: Engine, row: Row, xs: seq<Expr>, byAnd: bool)
    ensures Eval(db, row, Chain(xs, byAnd))
         == if byAnd then AllOf(EvalAll(db, row, xs)) else AnyOf(EvalAll(db, row, xs))
  {
    if xs != [] {
      ChainValue(db, row, xs[1..], byAnd);
      assert EvalAll(db, row, xs)[1..] == EvalAll(db, row, xs[1..]);
      if |xs| == 1 {
        assert EvalAll(db, row, xs[1..]) == [];
      }
    }
  }

  lemma {:induction false} MeaningValue(db: Engine, row: Row, e: Filter)
    requires Faithful(e)
    ensures Eval(db, row, Meaning(e)) == Holds(db, row, e)
    decreases e, 1
  {
    match e
    case Comparison(_, left, right) =>
      MeaningValue(db, row, left);
      MeaningValue(db, row, right);
    case ColumnRef(_) =>
    case Constant(_, _, _) =>
    case Conjunction(tag, children) =>
      MeaningValues(db, row, children);
      ChainValue(db, row, Meanings(children), tag.AndTag?);
    case Operator(_, _) =>
      OperatorValue(db, row, e);
    case Between(input, lower, upper) =>
      MeaningValue(db, row, input);
      MeaningValue(db, row, lower);
      MeaningValue(db, row, upper);
    case Function(_, _) =>
      FunctionValue(db, row, e);
    case Cast(child) =>
      MeaningValue(db, row, child);
  }

  lemma {:induction false} OperatorValue(db: Engine, row: Row, e: Filter)
    requires Faithful(e) && e.Operator?
    ensures Eval(db, row, Meaning(e)) == Holds(db, row, e)
    decreases e, 0
  {
    MeaningValue(db, row, e.children[0]);
    MeaningValues(db, row, e.children[1..]);
    hide OneOf;
  }

  lemma {:induction false} FunctionValue(db: Engine, row: Row, e: Filter)
    requires Faithful(e) && e.Function?
    ensures Eval(db, row, Meaning(e)) == Holds(db, row, e)
    decreases e, 0
  {
    if Pattern(e.name) {
      assert FaithfulAll(e.children[1..]) && e.children[1..][0] == e.children[1];
      MeaningValue(db, row, e.children[0]);
      MeaningValue(db, row, e.children[1]);
    } else {
      MeaningValues(db, row, e.children);
    }
  }

  lemma {:induction false} MeaningValues(db: Engine, row: Row, children: seq<Filter>)
    requires FaithfulAll(children)
    ensures EvalAll(db, row, Meanings(children)) == HoldsAll(db, row, children)
    decreases children, 0
  {
    if children != [] {
      MeaningValue(db, row, children[0]);
      MeaningValues(db, row, children[1..]);
      assert Meanings(children)[1..] == Meanings(children[1..]);
    }
  }

  // --- The words read back as that condition ---

  /** Words that end a test. */
  predicate Ends(rest: seq<string>) {
    rest == [] || rest[0] == ")" || rest[0] == "," || rest[0] == "AND" || rest[0] == "OR"
  }

  lemma {:induction false} NoTestFollows(x: Expr, rest: seq<string>)
    requires Ends(rest)
    ensures ReadRest(x, rest) == Some((x, rest))
  {
  }

  lemma {:induction false} WordFacts(e: Filter)
    requires Faithful(e) && Operand(e)
    ensures Words(e) != [] && Words(e)[0] != "NOT"
  {
    match e
    case ColumnRef(alias) => assert Quote(alias, '"')[0] == '"';
    case Constant(t, isNull, json) => ConstantWordFacts(t, isNull, json);
    case Conjunction(_, _) =>
    case Function(name, _) => NameFacts(name);
    case Cast(child) => WordFacts(child);
  }

  lemma {:induction false} ConstantWordFacts(t: TypeTag, isNull: bool, j: Json)
    requires FaithfulConstant(t, isNull, j)
    ensures ConstantWord(t, isNull, j) != "NOT"
  {
    var w := ConstantWord(t, isNull, j);
    assert w[0] == "NOT"[0] ==> w == "NULL";
  }

  lemma {:induction false} UpperWords()
    ensures Upper("AND") == "AND" && Upper("OR") == "OR" && Upper("NOT") == "NOT" && Upper("IS") == "IS"
    ensures Upper("IN") == "IN" && Upper("NULL") == "NULL" && Upper("TRUE") == "TRUE" && Upper("FALSE") == "FALSE"
    ensures Upper("LIKE") == "LIKE" && Upper("ILIKE") == "ILIKE" && Upper("BETWEEN") == "BETWEEN"
  {
  }

  lemma {:induction false} NameFacts(name: string)
    requires Name(name)
    ensures !Reserved(name) && !NumberText(name) && Closed(name) && name != "(" && !IsQuote(name[0])
  {
    UpperWords();
    BareToken(name);
  }

  /** The words of constants in upper case; a number is none of them. */
  lemma {:induction false} UpperConstants(w: string)
    ensures Upper("true") == "TRUE" && Upper("false") == "FALSE" && Upper("null") == "NULL"
    ensures Upper("TRUE") == "TRUE" && Upper("FALSE") == "FALSE" && Upper("NULL") == "NULL"
    ensures w != "" && (NumberText(w) || w[0] == '[' || w[0] == '{') ==> Upper(w) !in {"NULL", "TRUE", "FALSE"}
  {
    if w != "" {
      assert Upper(w)[0] == UpperChar(w[0]);
      assert "NULL"[0] == 'N' && "TRUE"[0] == 'T' && "FALSE"[0] == 'F';
    }
  }

  lemma {:induction false} ConstantReadsBack(t: TypeTag, isNull: bool, j: Json, rest: seq<string>)
    requires FaithfulConstant(t, isNull, j)
    ensures ReadOperand([ConstantWord(t, isNull, j)] + rest) == Some((Literal(ConstantLiteral(isNull, j)), rest))
  {
    var w := ConstantWord(t, isNull, j);
    ConstantReads(t, isNull, j);
    assert ([w] + rest)[1..] == rest;
    UpperConstants(w);
    if !isNull && j.JsonText? {
      UnquoteQuote(j.s, '\'');
    }
    hide Closed, Unquote, Quote, Upper;
  }

  lemma {:induction false} ColumnReadsBack(alias: string, rest: seq<string>)
    requires '"' !in alias
    ensures ReadOperand([Quote(alias, '"')] + rest) == Some((Column(alias), rest))
  {
    QuoteClosedToken(alias, '"');
    UnquoteQuote(alias, '"');
    assert ([Quote(alias, '"')] + rest)[1..] == rest;
  }

  lemma {:induction false} ParensReadBack(ws: seq<string>, x: Expr, rest: seq<string>)
    requires ReadOr(ws + ([")"] + rest)) == Some((x, [")"] + rest))
    ensures ReadOperand(InParens(ws) + rest) == Some((x, rest))
  {
    PunctToken('(');
    assert InParens(ws) + rest == ["("] + (ws + ([")"] + rest));
    assert (["("] + (ws + ([")"] + rest)))[1..] == ws + ([")"] + rest);
    assert ([")"] + rest)[1..] == rest;
    hide Closed, ReadOr;
  }

  lemma {:induction false} CallReadsBack(name: string, ws: seq<string>, xs: seq<Expr>, rest: seq<string>)
    requires Name(name)
    requires if xs == [] then ws == [] else
               ws != [] && ws[0] != ")" && ReadList(ws + ([")"] + rest)) == Some((xs, rest))
    ensures ReadOperand(([name] + InParens(ws)) + rest) == Some((Call(name, xs), rest))
  {
    NameFacts(name);
    hide Closed, ReadList, ReadOr, Name, Reserved, NumberText;
    var ts := ([name] + InParens(ws)) + rest;
    assert ts == [name] + (["("] + (ws + ([")"] + rest)));
    assert ts[2..] == ws + ([")"] + rest);
    if xs == [] {
      assert ts[3..] == rest;
    }
  }

  lemma {:induction false} FirstWords(e: Filter)
    requires Faithful(e)
    ensures Words(e) != [] && Words(e)[0] != ")"
  {
    match e
    case Comparison(_, left, _) => FirstWords(left);
    case ColumnRef(alias) => assert Quote(alias, '"')[0] == '"';
    case Constant(t, isNull, json) => assert ConstantWord(t, isNull, json)[0] != ')';
    case Conjunction(_, _) =>
    case Operator(tag, children) => FirstWords(children[0]);
    case Between(input, _, _) => FirstWords(input);
    case Function(name, children) =>
      PatternNames(name);
      if Pattern(name) {
        FirstWords(children[0]);
      } else {
        assert NameChar(name[0]);
      }
    case Cast(child) => FirstWords(child);
  }

  /** One operand, whatever follows. */
  lemma {:induction false} OperandReadsBack(e: Filter, rest: seq<string>)
    requires Faithful(e) && Operand(e)
    ensures ReadOperand(Words(e) + rest) == Some((Meaning(e), rest))
    decreases e, 0
  {
    match e
    case ColumnRef(alias) =>
      ColumnReadsBack(alias, rest);
    case Constant(t, isNull, json) =>
      ConstantReadsBack(t, isNull, json, rest);
    case Conjunction(tag, children) =>
      if tag.AndTag? {
        AndReadsBack(children, [")"] + rest);
        var ws := WordsList(children, ByAnd) + ([")"] + rest);
        hide ReadAnd;
        assert ReadOr(ws) == ReadAnd(ws);
        ParensReadBack(WordsList(children, ByAnd), Meaning(e), rest);
      } else {
        OrReadsBack(children, [")"] + rest);
        ParensReadBack(WordsList(children, ByOr), Meaning(e), rest);
      }
    case Function(name, children) =>
      if children != [] {
        ListReadsBack(children, rest);
        FirstWords(children[0]);
      }
      CallReadsBack(name, WordsList(children, ByComma), Meanings(children), rest);
    case Cast(child) =>
      OperandReadsBack(child, rest);
  }

  /** One condition, up to whatever ends it. */
  lemma {:induction false} ConditionReadsBack(e: Filter, rest: seq<string>)
    requires Faithful(e) && Ends(rest)
    ensures ReadNot(Words(e) + rest) == Some((Meaning(e), rest))
    decreases e, 2
  {
    if Operand(e) {
      OperandReadsBack(e, rest);
      WordFacts(e);
      NoTestFollows(Meaning(e), rest);
      hide ReadOperand, ReadRest, Words, Meaning;
    } else if e.Cast? {
      ConditionReadsBack(e.child, rest);
    } else {
      TestReadsBack(e, rest);
    }
  }

  /** A test of an operand that reads as `x`: what follows the operand decides. */
  lemma {:induction false} TestOf(e: Filter, tail: seq<string>, x: Expr, rest: seq<string>)
    requires Faithful(e) && Operand(e)
    requires ReadOperand(Words(e) + tail) == Some((Meaning(e), tail))
    requires ReadRest(Meaning(e), tail) == Some((x, rest))
    ensures ReadNot(Words(e) + tail) == Some((x, rest))
  {
    WordFacts(e);
    hide ReadOperand, ReadRest, Words, Meaning;
  }

  lemma {:induction false} TestReadsBack(e: Filter, rest: seq<string>)
    requires Faithful(e) && !Operand(e) && !e.Cast? && Ends(rest)
    ensures ReadNot(Words(e) + rest) == Some((Meaning(e), rest))
    decreases e, 1
  {
    match e
    case Comparison(_, _, _) => ComparisonReadsBack(e, rest);
    case Operator(tag, _) =>
      if tag.InTag? || tag.NotInTag? {
        InReadsBack(e, rest);
      } else {
        CheckReadsBack(e, rest);
      }
    case Between(_, _, _) => BetweenReadsBack(e, rest);
    case Function(_, _) => LikeReadsBack(e, rest);
  }

  /** A comparator and an operand after an operand. */
  lemma {:induction false} ComparisonFollows(x: Expr, c: Comparator, ws: seq<string>, y: Expr, rest: seq<string>)
    requires ReadOperand(ws + rest) == Some((y, rest))
    ensures ReadRest(x, [ComparatorText(c)] + (ws + rest)) == Some((Compare(c, x, y), rest))
  {
    var tail := [ComparatorText(c)] + (ws + rest);
    assert tail[1..] == ws + rest;
    assert ComparatorOf(tail[0]) == Some(c);
    hide ReadOperand, ComparatorOf, ComparatorText;
  }

  lemma {:induction false} ComparisonReadsBack(e: Filter, rest: seq<string>)
    requires Faithful(e) && e.Comparison? && Ends(rest)
    ensures ReadNot(Words(e) + rest) == Some((Meaning(e), rest))
    decreases e, 0
  {
    var op := ComparatorText(e.comparator.value);
    var tail := [op] + (Words(e.right) + rest);
    OperandReadsBack(e.left, tail);
    OperandReadsBack(e.right, rest);
    assert Meaning(e) == Compare(e.comparator.value, Meaning(e.left), Meaning(e.right));
    assert Words(e) == Words(e.left) + ([op] + Words(e.right));
    hide ReadOperand, ReadRest, ReadNot, Words, Meaning, ComparatorText;
    ComparisonFollows(Meaning(e.left), e.comparator.value, Words(e.right), Meaning(e.right), rest);
    ConcatAssoc(Words(e.left), [op] + Words(e.right), rest);
    ConcatAssoc([op], Words(e.right), rest);
    TestOf(e.left, tail, Meaning(e), rest);
  }

  /** IS NULL, or IS NOT NULL, after an operand. */
  lemma {:induction false} NullFollows(x: Expr, negated: bool, rest: seq<string>)
    ensures ReadRest(x, (if negated then ["IS", "NOT", "NULL"] else ["IS", "NULL"]) + rest)
         == Some((Negated(negated, IsNull(x)), rest))
  {
    hide ReadOperand, ReadMatch;
    var tail := (if negated then ["IS", "NOT", "NULL"] else ["IS", "NULL"]) + rest;
    assert tail[(if negated then 3 else 2)..] == rest;
  }

  /** IS NULL, IS NOT NULL and NOT. */
  lemma {:induction false} CheckReadsBack(e: Filter, rest: seq<string>)
    requires Faithful(e) && e.Operator? && !e.operator.InTag? && !e.operator.NotInTag? && Ends(rest)
    ensures ReadNot(Words(e) + rest) == Some((Meaning(e), rest))
    decreases e, 0
  {
    var child := e.children[0];
    if e.operator.NotTag? {
      SingleReadsBack(child, [")"] + rest);
      NotReadsBack(Words(child), Meaning(child), rest);
      assert Words(e) == ["NOT"] + InParens(Words(child)) && Meaning(e) == Not(Meaning(child));
      hide ReadNot, Words, Meaning, InParens, Ends;
      ConcatAssoc(["NOT"], InParens(Words(child)), rest);
    } else {
      var negated := e.operator.IsNotNullTag?;
      var words := if negated then ["IS", "NOT", "NULL"] else ["IS", "NULL"];
      OperandReadsBack(child, words + rest);
      NullFollows(Meaning(child), negated, rest);
      assert Words(e) == Words(child) + words;
      assert Meaning(e) == Negated(negated, IsNull(Meaning(child)));
      hide ReadOperand, ReadRest, ReadNot, Words, Meaning;
      ConcatAssoc(Words(child), words, rest);
      TestOf(child, words + rest, Meaning(e), rest);
    }
  }

  /** BETWEEN and two bounds after an operand. */
  lemma {:induction false} RangeFollows(x: Expr, wl: seq<string>, l: Expr, wu: seq<string>, u: Expr, rest: seq<string>)
    requires var last := ["AND"] + (wu + rest);
             ReadOperand(wl + last) == Some((l, last)) && ReadOperand(wu + rest) == Some((u, rest))
    ensures ReadRest(x, ["BETWEEN"] + (wl + (["AND"] + (wu + rest)))) == Some((Range(x, l, u), rest))
  {
    var last := ["AND"] + (wu + rest);
    assert (["BETWEEN"] + (wl + last))[1..] == wl + last && last[1..] == wu + rest;
    hide ReadOperand, ReadMatch;
  }

  lemma {:induction false} BetweenReadsBack(e: Filter, rest: seq<string>)
    requires Faithful(e) && e.Between? && Ends(rest)
    ensures ReadNot(Words(e) + rest) == Some((Meaning(e), rest))
    decreases e, 0
  {
    var last := ["AND"] + (Words(e.upper) + rest);
    var tail := ["BETWEEN"] + (Words(e.lower) + last);
    OperandReadsBack(e.input, tail);
    OperandReadsBack(e.lower, last);
    OperandReadsBack(e.upper, rest);
    assert Meaning(e) == Range(Meaning(e.input), Meaning(e.lower), Meaning(e.upper));
    assert Words(e) == Words(e.input) + (["BETWEEN"] + (Words(e.lower) + (["AND"] + Words(e.upper))));
    hide ReadOperand, ReadRest, ReadNot, Words, Meaning;
    RangeFollows(Meaning(e.input), Words(e.lower), Meaning(e.lower), Words(e.upper), Meaning(e.upper), rest);
    RangeText(Words(e.input), Words(e.lower), Words(e.upper), rest);
    TestOf(e.input, tail, Meaning(e), rest);
  }

  lemma {:induction false} RangeText(wi: seq<string>, wl: seq<string>, wu: seq<string>, rest: seq<string>)
    ensures (wi + (["BETWEEN"] + (wl + (["AND"] + wu)))) + rest == wi + (["BETWEEN"] + (wl + (["AND"] + (wu + rest))))
  {
  }

  lemma {:induction false} NotReadsBack(ws: seq<string>, x: Expr, rest: seq<string>)
    requires ReadOr(ws + ([")"] + rest)) == Some((x, [")"] + rest)) && Ends(rest)
    ensures ReadNot(["NOT"] + (InParens(ws) + rest)) == Some((Not(x), rest))
  {
    ParensReadBack(ws, x, rest);
    NoTestFollows(x, rest);
    var ts := InParens(ws) + rest;
    assert (["NOT"] + ts)[1..] == ts;
    assert ts[0] == "(";
    hide ReadOperand, ReadRest, ReadOr, InParens;
    assert ReadNot(ts) == Some((x, rest));
  }

  /** `IN` and a list, or `NOT IN`, after an operand. */
  lemma {:induction false} InFollows(x: Expr, negated: bool, list: seq<string>, xs: seq<Expr>, rest: seq<string>)
    requires ReadList(list + ([")"] + rest)) == Some((xs, rest))
    ensures ReadRest(x, (if negated then ["NOT", "IN"] else ["IN"]) + (InParens(list) + rest))
         == Some((Negated(negated, In(x, xs)), rest))
  {
    hide ReadList, ReadOperand;
    var items := list + ([")"] + rest);
    var matched := ["IN"] + (["("] + items);
    assert ["IN"] + (InParens(list) + rest) == matched;
    assert ["NOT", "IN"] + (InParens(list) + rest) == ["NOT"] + matched;
    assert matched[2..] == items && (["NOT"] + matched)[1..] == matched;
    assert ReadMatch(x, matched) == Some((In(x, xs), rest));
  }

  lemma {:induction false} InReadsBack(e: Filter, rest: seq<string>)
    requires Faithful(e) && e.Operator? && (e.operator.InTag? || e.operator.NotInTag?) && Ends(rest)
    ensures ReadNot(Words(e) + rest) == Some((Meaning(e), rest))
    decreases e, 0
  {
    var children, negated := e.children, e.operator.NotInTag?;
    var list := WordsList(children[1..], ByComma);
    var words := if negated then ["NOT", "IN"] else ["IN"];
    var tail := words + (InParens(list) + rest);
    OperandReadsBack(children[0], tail);
    ListReadsBack(children[1..], rest);
    InFollows(Meaning(children[0]), negated, list, Meanings(children[1..]), rest);
    assert Words(e) + rest == Words(children[0]) + tail by {
      ConcatAssoc(Words(children[0]), words + InParens(list), rest);
      ConcatAssoc(words, InParens(list), rest);
    }
    assert Meaning(e) == Negated(negated, In(Meaning(children[0]), Meanings(children[1..])));
    hide ReadRest, ReadNot, ReadOperand, Words, Meaning, InParens, WordsList;
    TestOf(children[0], tail, Meaning(e), rest);
  }

  /** `LIKE` and its kin after an operand. */
  lemma {:induction false} LikeFollows(x: Expr, k: Likeness, pattern: Filter, rest: seq<string>)
    requires k.negated ==> !k.insensitive
    requires ReadOperand(Words(pattern) + rest) == Some((Meaning(pattern), rest))
    ensures ReadRest(x, LikeWords(k) + (Words(pattern) + rest))
         == Some((Negated(k.negated, Like(k.insensitive, x, Meaning(pattern))), rest))
  {
    hide ReadOperand, Words, Meaning;
    var ws := Words(pattern) + rest;
    var matched := [if k.insensitive then "ILIKE" else "LIKE"] + ws;
    assert LikeWords(k) + ws == if k.negated then ["NOT"] + matched else matched;
    assert matched[1..] == ws && (["NOT"] + matched)[1..] == matched;
    assert ReadMatch(x, matched) == Some((Like(k.insensitive, x, Meaning(pattern)), rest));
  }

  lemma {:induction false} LikeReadsBack(e: Filter, rest: seq<string>)
    requires Faithful(e) && e.Function? && Pattern(e.name) && Ends(rest)
    ensures ReadNot(Words(e) + rest) == Some((Meaning(e), rest))
    decreases e, 0
  {
    PatternNames(e.name);
    var children, k := e.children, LikenessOf(e.name).value;
    assert FaithfulAll(children[1..]) && children[1..][0] == children[1];
    var tail := LikeWords(k) + (Words(children[1]) + rest);
    OperandReadsBack(children[0], tail);
    OperandReadsBack(children[1], rest);
    LikeFollows(Meaning(children[0]), k, children[1], rest);
    assert Words(e) + rest == Words(children[0]) + tail by {
      ConcatAssoc(Words(children[0]), LikeWords(k) + Words(children[1]), rest);
      ConcatAssoc(LikeWords(k), Words(children[1]), rest);
    }
    assert Meaning(e) == Negated(k.negated, Like(k.insensitive, Meaning(children[0]), Meaning(children[1])));
    hide ReadRest, ReadNot, ReadOperand, Words, Meaning;
    TestOf(children[0], tail, Meaning(e), rest);
  }

  // --- Chains and lists ---

  /** A condition in parentheses or in a list. */
  lemma {:induction false} SingleReadsBack(e: Filter, rest: seq<string>)
    requires Faithful(e) && Ends(rest) && Head(rest) != "AND" && Head(rest) != "OR"
    ensures ReadOr(Words(e) + rest) == Some((Meaning(e), rest))
    decreases e, 3
  {
    ConditionReadsBack(e, rest);
    hide ReadNot;
  }

  lemma {:induction false} AndReadsBack(children: seq<Filter>, rest: seq<string>)
    requires FaithfulAll(children) && children != [] && Ends(rest) && Head(rest) != "AND"
    ensures ReadAnd(WordsList(children, ByAnd) + rest) == Some((Chain(Meanings(children), true), rest))
    decreases children, 0
  {
    if |children| == 1 {
      ConditionReadsBack(children[0], rest);
      hide ReadNot;
    } else {
      var more := WordsList(children[1..], ByAnd) + rest;
      ConditionReadsBack(children[0], ["AND"] + more);
      AndReadsBack(children[1..], rest);
      hide ReadNot;
      assert WordsList(children, ByAnd) + rest == Words(children[0]) + (["AND"] + more);
      assert (["AND"] + more)[1..] == more;
      assert Meanings(children)[1..] == Meanings(children[1..]);
    }
  }

  lemma {:induction false} OrReadsBack(children: seq<Filter>, rest: seq<string>)
    requires FaithfulAll(children) && children != [] && Ends(rest) && Head(rest) != "AND" && Head(rest) != "OR"
    ensures ReadOr(WordsList(children, ByOr) + rest) == Some((Chain(Meanings(children), false), rest))
    decreases children, 0
  {
    if |children| == 1 {
      SingleReadsBack(children[0], rest);
    } else {
      var more := WordsList(children[1..], ByOr) + rest;
      ConditionReadsBack(children[0], ["OR"] + more);
      OrReadsBack(children[1..], rest);
      hide ReadNot;
      assert WordsList(children, ByOr) + rest == Words(children[0]) + (["OR"] + more);
      assert (["OR"] + more)[1..] == more;
      assert ReadAnd(Words(children[0]) + (["OR"] + more)) == Some((Meaning(children[0]), ["OR"] + more));
      assert Meanings(children)[1..] == Meanings(children[1..]);
    }
  }

  lemma {:induction false} ListReadsBack(children: seq<Filter>, rest: seq<string>)
    requires FaithfulAll(children) && children != []
    ensures ReadList(WordsList(children, ByComma) + ([")"] + rest)) == Some((Meanings(children), rest))
    decreases children, 0
  {
    hide Faithful, Words, Meaning;
    assert ([")"] + rest)[1..] == rest;
    if |children| == 1 {
      SingleReadsBack(children[0], [")"] + rest);
      hide ReadOr;
      assert Meanings(children) == [Meaning(children[0])];
    } else {
      var more := WordsList(children[1..], ByComma) + ([")"] + rest);
      SingleReadsBack(children[0], [","] + more);
      ListReadsBack(children[1..], rest);
      hide ReadOr;
      assert WordsList(children, ByComma) + ([")"] + rest) == Words(children[0]) + ([","] + more);
      assert ([","] + more)[1..] == more;
      assert Meanings(children)[1..] == Meanings(children[1..]);
    }
  }

  // --- The main results ---

  /** Fully translatable filters: the clause is there, reads as one condition, and has the
      filters' value on every row of every database. */
  lemma {:induction false} ClauseKeepsMeaning(db: Engine, row: Row, filters: seq<Filter>)
    requires FaithfulAll(filters) && filters != []
    ensures WhereClause(filters).Some?
    ensures var x := ReadCondition(WhereClause(filters).value);
            x.Some? && Eval(db, row, x.value) == AllOf(HoldsAll(db, row, filters))
  {
    PartsRead(filters, ByAnd);
    var text := JoinParts(Parts(filters), ByAnd);
    assert Tokenize(text) == WordsList(filters, ByAnd) by {
      assert text + "" == text && Stops("");
      assert Tokenize(text + "") == WordsList(filters, ByAnd) + Tokenize("");
      TokenizeEmpty();
      assert WordsList(filters, ByAnd) + [] == WordsList(filters, ByAnd);
    }
    AndReadsBack(filters, []);
    assert WordsList(filters, ByAnd) + [] == WordsList(filters, ByAnd);
    MeaningValues(db, row, filters);
    ChainValue(db, row, Meanings(filters), true);
    hide Tokenize, ReadAnd, WordsList, Meanings, Chain, Eval, Holds;
  }
}
