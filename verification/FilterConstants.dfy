/** Columns and constants: exactly which ones read back as themselves. */
module FilterConstants {
  import opened Ascii
  import opened Lexemes
  import opened Tokens
  import opened Wrappers
  import opened Filters
  import opened FilterTokens
  import opened SqlReader
  import opened FilterMeaning
  import opened FilterWeakening

  // --- Text under other types prints as a column ---

  /** Text constants of a type off the list, such as dates, taken for column names. */
  function AsColumns(e: Filter): Filter {
    match e
    case Constant(t, isNull, json) =>
      if !isNull && json.JsonText? && (t.OtherType? || t.NumericType?) then ColumnRef(JsonEscaped(json.s)) else e
    case Comparison(c, left, right) => Comparison(c, AsColumns(left), AsColumns(right))
    case Conjunction(tag, children) => Conjunction(tag, AllAsColumns(children))
    case Operator(tag, children) => Operator(tag, AllAsColumns(children))
    case Between(input, lower, upper) => Between(AsColumns(input), AsColumns(lower), AsColumns(upper))
    case Function(name, children) => Function(name, AllAsColumns(children))
    case Cast(child) => Cast(AsColumns(child))
    case _ => e
  }

  function AllAsColumns(children: seq<Filter>): (r: seq<Filter>)
    ensures |r| == |children|
  {
    if children == [] then [] else [AsColumns(children[0])] + AllAsColumns(children[1..])
  }

  /** The two filters are the same text, whatever they hold. */
  lemma {:induction false} SameText(e: Filter)
    ensures Sql(AsColumns(e)) == Sql(e)
    decreases e, 0
  {
    hide LikenessOf;
    match e
    case Comparison(_, left, right) =>
      SameText(left);
      SameText(right);
    case Conjunction(_, children) =>
      SameTexts(children);
    case Operator(tag, children) =>
      if children != [] {
        SameText(children[0]);
        SameTexts(children[1..]);
        SameOperator(tag, children);
      }
    case Between(input, lower, upper) =>
      SameText(input);
      SameText(lower);
      SameText(upper);
    case Function(name, children) =>
      SameTexts(children);
      if |children| >= 2 {
        SameText(children[0]);
        SameText(children[1]);
      }
      SameFunction(name, children);
    case Cast(child) => SameText(child);
    case _ =>
  }

  lemma {:induction false} SameOperator(tag: OperatorTag, children: seq<Filter>)
    requires children != [] && Sql(AsColumns(children[0])) == Sql(children[0])
    requires Parts(AllAsColumns(children[1..])) == Parts(children[1..])
    ensures Sql(AsColumns(Operator(tag, children))) == Sql(Operator(tag, children))
  {
    var others := AllAsColumns(children);
    assert others[0] == AsColumns(children[0]) && others[1..] == AllAsColumns(children[1..]);
    hide AllAsColumns, Parts;
  }

  lemma {:induction false} SameFunction(name: string, children: seq<Filter>)
    requires Parts(AllAsColumns(children)) == Parts(children)
    requires |children| >= 2 ==> Sql(AsColumns(children[0])) == Sql(children[0])
    requires |children| >= 2 ==> Sql(AsColumns(children[1])) == Sql(children[1])
    ensures Sql(AsColumns(Function(name, children))) == Sql(Function(name, children))
  {
    var others := AllAsColumns(children);
    assert |children| >= 2 ==> others[0] == AsColumns(children[0]);
    assert |children| >= 2 ==> others[1] == AllAsColumns(children[1..])[0] == AsColumns(children[1]);
    hide AllAsColumns, Parts, LikenessOf;
  }

  lemma {:induction false} SameTexts(children: seq<Filter>)
    ensures Parts(AllAsColumns(children)) == Parts(children)
    decreases children, 1
  {
    if children != [] {
      SameText(children[0]);
      SameTexts(children[1..]);
      assert AllAsColumns(children)[1..] == AllAsColumns(children[1..]);
      hide Sql, AsColumns;
    }
  }

  /** So the clause compares with other columns instead of with the dates. */
  lemma {:induction false} DatesReadAsColumns(db: Engine, row: Row, e: Filter)
    requires Faithful(AsColumns(e))
    ensures WhereClause([e]).Some?
    ensures var x := ReadCondition(WhereClause([e]).value);
            x.Some? && Eval(db, row, x.value) == Holds(db, row, AsColumns(e))
  {
    SameText(e);
    hide Sql, Faithful, AsColumns, Holds, ReadCondition, Eval, WhereClause;
    OneFilter(db, row, e, AsColumns(e));
  }

  // --- Reading JSON text ---

  function HexValue(c: char): Option<nat> {
    if '0' <= c <= '9' then Some(c as int - '0' as int)
    else if 'a' <= c <= 'f' then Some(c as int - 'a' as int + 10)
    else None
  }

  /** The character that an escape beginning `s` stands for, and the length of the escape. */
  function Unescape(s: string): (char, nat)
    requires s != ""
  {
    if s[0] != '\\' || |s| < 2 then (s[0], 1)
    else if s[1] == 'n' then ('\n', 2)
    else if s[1] == 'r' then ('\r', 2)
    else if s[1] == 't' then ('\t', 2)
    else if s[1] == 'b' then (8 as char, 2)
    else if s[1] == 'f' then (12 as char, 2)
    else if s[1] == 'u' && |s| >= 6 && HexValue(s[4]).Some? && HexValue(s[5]).Some? then
      ((16 * HexValue(s[4]).value + HexValue(s[5]).value) as char, 6)
    else (s[1], 2)
  }

  /** The text that the inside of a JSON string stands for. */
  function Unescaped(s: string): string
    decreases |s|
  {
    if s == "" then ""
    else
      var (c, n) := Unescape(s);
      if n > |s| then [c] else [c] + Unescaped(s[n..])
  }

  lemma {:induction false} UnescapeOne(c: char, rest: string)
    ensures var s := JsonEscape(c) + rest; Unescape(s) == (c, |JsonEscape(c)|) && s[|JsonEscape(c)|..] == rest
  {
    var s := JsonEscape(c) + rest;
    assert s[|JsonEscape(c)|..] == rest;
    if c < ' ' && |JsonEscape(c)| == 6 {
      var n := c as int;
      assert s[4] == HexDigit(n / 16) && s[5] == HexDigit(n % 16) && s[1] == 'u';
      assert 16 * (n / 16) + n % 16 == n;
    }
  }

  /** JSON text stands for what was escaped. */
  lemma {:induction false} UnescapeEscaped(s: string)
    ensures Unescaped(JsonEscaped(s)) == s
  {
    if s != "" {
      UnescapeEscaped(s[1..]);
      UnescapeOne(s[0], JsonEscaped(s[1..]));
      hide Unescape, JsonEscape;
      assert [s[0]] + s[1..] == s;
    }
  }

  lemma {:induction false} EscapedQuotes(s: string)
    ensures '"' in JsonEscaped(s) <==> '"' in s
  {
    if s != "" {
      EscapedQuotes(s[1..]);
      assert s == [s[0]] + s[1..];
      assert '"' in JsonEscape(s[0]) <==> s[0] == '"' by {
        assert JsonEscape('"')[1] == '"';
      }
    }
  }

  /** Such a constant reads as a column exactly when its text has no double quote; the column is
      the text as JSON escapes it. */
  lemma {:induction false} TypedTextReadsAsColumnIff(t: TypeTag, s: string)
    requires t.OtherType? || t.NumericType?
    ensures ReadCondition(ConstantText(t, false, JsonText(s))) == Some(Column(JsonEscaped(s))) <==> '"' !in s
  {
    EscapedQuotes(s);
    ColumnReadsBackIff(JsonEscaped(s));
  }

  // --- Quotes inside quotes ---

  lemma {:induction false} CollapseShrinks(s: string, q: char, k: nat)
    requires k + 1 < |s| && s[k] == q && s[k + 1] == q
    ensures |Collapse(s, q)| < |s|
  {
    CollapseLength(s[1..], q);
    CollapseLength(s[2..], q);
    if !(s[0] == q && s[1] == q) {
      CollapseShrinks(s[1..], q, k - 1);
    }
  }

  lemma {:induction false} CollapseLength(s: string, q: char)
    ensures |Collapse(s, q)| <= |s|
  {
    if s != "" {
      CollapseLength(s[1..], q);
      if |s| > 1 {
        CollapseLength(s[2..], q);
      }
    }
  }

  /** A quoted run that spans `s` and its closing quote, with a quote inside, has a doubled
      one. */
  lemma {:induction false} InnerQuoteIsDoubled(s: string, q: char) returns (k: nat)
    requires q in s && QuoteLength(s + [q] + " ", q) == |s| + 1
    ensures k + 1 < |s| && s[k] == q && s[k + 1] == q
  {
    var whole := s + [q] + " ";
    if s[0] == q {
      k := 0;
      assert |s| > 1 ==> whole[1] == s[1];
    } else {
      assert whole[1..] == s[1..] + [q] + " ";
      assert forall i :: 1 <= i < |s| ==> s[i] == s[1..][i - 1];
      var j := InnerQuoteIsDoubled(s[1..], q);
      k := j + 1;
    }
  }

  // --- Reading one atom ---

  predicate Atom(x: Expr) {
    x.Column? || x.Literal?
  }

  lemma {:induction false} NothingFollows(x: Expr, ts: seq<string>, y: Expr, rest: seq<string>)
    requires ReadRest(x, ts) == Some((y, rest)) && Atom(y)
    ensures x == y && ts == rest
  {
    hide ReadOperand, ReadList;
  }

  /** A condition that is a column or a literal was read as one operand. */
  lemma {:induction false} AtomIsOperand(ts: seq<string>, x: Expr, rest: seq<string>)
    requires ReadOr(ts) == Some((x, rest)) && Atom(x)
    ensures Head(ts) != "NOT" && ReadOperand(ts) == Some((x, rest))
  {
    assert ReadAnd(ts) == Some((x, rest));
    assert ReadNot(ts) == Some((x, rest));
    assert ReadTest(ts) == Some((x, rest));
    var o := ReadOperand(ts);
    assert o.Some? && ReadRest(o.value.0, o.value.1) == Some((x, rest));
    hide ReadOr, ReadAnd, ReadNot, ReadTest, ReadOperand, ReadRest;
    NothingFollows(o.value.0, o.value.1, x, rest);
  }

  lemma {:induction false} OperandIsAtom(w: string, x: Expr)
    requires Closed(w) && w != "NOT" && Tokenize(w) == [w]
    requires ReadOperand([w]) == Some((x, []))
    ensures ReadCondition(w) == Some(x)
  {
    hide ReadOperand, Tokenize, Closed;
    NoTestFollows(x, []);
    assert ReadTest([w]) == Some((x, []));
    hide ReadTest;
    assert ReadNot([w]) == Some((x, []));
    hide ReadNot;
    assert ReadAnd([w]) == Some((x, []));
  }

  lemma {:induction false} ClosedAlone(w: string)
    requires Closed(w)
    ensures Tokenize(w) == [w]
  {
    ClosedFits(w, "");
    TokenizeFirst(w, "");
    TokenizeEmpty();
    assert w + "" == w && [w] + [] == [w];
  }

  /** Tokens that read as one bare column are one quoted token. */
  lemma {:induction false} OneColumn(ts: seq<string>, name: string)
    requires ts != [] && ts[0] != "" && ts[0][0] == '"'
    requires ReadOr(ts) == Some((Column(name), []))
    ensures ts == [ts[0]] && Closed(ts[0]) && Unquote(ts[0]) == name
  {
    AtomIsOperand(ts, Column(name), []);
    assert ts == [ts[0]] + ts[1..];
    hide ReadOr, ReadList, Closed, Unquote;
  }

  /** A literal number that was read has the form of one. */
  lemma {:induction false} LiteralNumber(ts: seq<string>, text: string, rest: seq<string>)
    requires ReadOr(ts) == Some((Literal(Number(text)), rest))
    ensures NumberText(text)
    decreases |ts|
  {
    AtomIsOperand(ts, Literal(Number(text)), rest);
    hide ReadList, Closed, Unquote;
    if ts[0] == "(" {
      LiteralNumber(ts[1..], text, ReadOr(ts[1..]).value.1);
    }
  }

  // --- Exactly which columns and constants read back ---

  /** A column reference reads back as that column exactly when its name has no double quote. */
  lemma {:induction false} ColumnReadsBackIff(alias: string)
    ensures ReadCondition(Sql(ColumnRef(alias)).value) == Some(Column(alias)) <==> '"' !in alias
  {
    var text := Sql(ColumnRef(alias)).value;
    if '"' !in alias {
      ColumnReads(alias);
      ColumnReadsBack(alias, []);
      assert text + "" == text && Stops("");
      TokenizeEmpty();
      var ts := [Quote(alias, '"')];
      assert ts + [] == ts;
      assert Tokenize(text) == ts;
      assert ts[0][0] == '"';
      hide Tokenize, Closed, Unquote, Quote, ReadOperand, ReadCondition;
      OperandIsAtom(text, Column(alias));
    } else if ReadCondition(text) == Some(Column(alias)) {
      QuotedColumnIsWhole(alias, text);
    }
  }

  lemma {:induction false} QuotedColumnIsWhole(alias: string, text: string)
    requires text == "\"" + (alias + "\"") && '"' in alias
    ensures ReadCondition(text) != Some(Column(alias))
  {
    if ReadCondition(text) == Some(Column(alias)) {
      var ts := Tokenize(text);
      FirstToken(text);
      var n := TokenLength(text);
      assert ts[0] == text[..n] && ts[0][0] == '"';
      OneColumn(ts, alias);
      assert Tokenize(text[n..]) == [];
      hide ReadCondition;
      if n < |text| {
        LastIsToken(text[n..]);
      }
      assert text[..n] == text;
      assert (text + " ")[1..] == alias + ['"'] + " ";
      assert text[1..|text| - 1] == alias;
      var k := InnerQuoteIsDoubled(alias, '"');
      CollapseShrinks(alias, '"', k);
      assert false;
    }
  }

  lemma {:induction false} LastIsToken(s: string)
    requires s != "" && !IsWhitespace(s[|s| - 1])
    ensures Tokenize(s) != []
  {
    if IsWhitespace(s[0]) {
      LastIsToken(s[1..]);
    }
  }

  /** The constants whose text reads as the value JSON gives: NULLs; text of type text; other
      JSON where no quotes are put around it, a number under the boolean type only when it has
      no small letter. */
  predicate ReadsAsItself(t: TypeTag, isNull: bool, j: Json) {
    || isNull
    || (match j
        case JsonText(_) => t.TextType?
        case JsonNumber(text) => !t.TextType? && NumberText(text) && (t.BooleanType? ==> Upper(text) == text)
        case Compound(_) => false
        case _ => !t.TextType?)
  }

  /** Printed arrays and objects open with a bracket or a brace. */
  predicate Bracketed(j: Json) {
    j.Compound? ==> j.text != "" && (j.text[0] == '[' || j.text[0] == '{')
  }

  lemma {:induction false} ConstantReadsBackIff(t: TypeTag, isNull: bool, j: Json)
    requires Bracketed(j)
    ensures ReadCondition(ConstantText(t, isNull, j)) == Some(Literal(ConstantLiteral(isNull, j)))
       <==> ReadsAsItself(t, isNull, j)
  {
    if ReadsAsItself(t, isNull, j) {
      ReadsConstant(t, isNull, j);
    } else if ReadCondition(ConstantText(t, isNull, j)) == Some(Literal(ConstantLiteral(isNull, j))) {
      MisreadConstant(t, j);
      assert false;
    }
  }

  lemma {:induction false} ReadsConstant(t: TypeTag, isNull: bool, j: Json)
    requires ReadsAsItself(t, isNull, j)
    ensures ReadCondition(ConstantText(t, isNull, j)) == Some(Literal(ConstantLiteral(isNull, j)))
  {
    var w := ConstantText(t, isNull, j);
    hide Tokenize, Closed, Unquote, ReadCondition, ReadOperand;
    ReadsConstantOperand(t, isNull, j);
    hide ConstantText, ReadsAsItself;
    ClosedAlone(w);
    OperandIsAtom(w, Literal(ConstantLiteral(isNull, j)));
  }

  lemma {:induction false} ReadsConstantOperand(t: TypeTag, isNull: bool, j: Json)
    requires ReadsAsItself(t, isNull, j)
    ensures var w := ConstantText(t, isNull, j);
            Closed(w) && w != "NOT" && ReadOperand([w]) == Some((Literal(ConstantLiteral(isNull, j)), []))
  {
    var w := ConstantText(t, isNull, j);
    var none: seq<string> := [];
    hide Closed, Unquote, ReadOr, ReadList;
    assert [w][1..] == none;
    if !isNull && j.JsonText? {
      QuoteClosedToken(j.s, '\'');
      UnquoteQuote(j.s, '\'');
    } else {
      BareToken(w);
      UpperConstants(w);
      hide Upper;
      assert w[0] != 'N' || w[1] != 'O';
    }
  }

  lemma {:induction false} MisreadConstant(t: TypeTag, j: Json)
    requires !ReadsAsItself(t, false, j) && Bracketed(j)
    ensures ReadCondition(ConstantText(t, false, j)) != Some(Literal(ConstantLiteral(false, j)))
  {
    var text, v := ConstantText(t, false, j), ConstantLiteral(false, j);
    if ReadCondition(text) == Some(Literal(v)) {
      if j.JsonNumber? && !t.TextType? {
        MisreadNumber(t, j);
      } else {
        FirstToken(text);
        AtomIsOperand(Tokenize(text), Literal(v), []);
        var first := Tokenize(text)[0];
        assert first != "" && first[0] == text[0];
        hide ReadOr, ReadList, Tokenize, ReadCondition, Unquote, Closed;
        UpperConstants(first);
        hide Upper;
      }
      assert false;
    }
  }

  lemma {:induction false} MisreadNumber(t: TypeTag, j: Json)
    requires j.JsonNumber? && !t.TextType? && !ReadsAsItself(t, false, j)
    ensures ReadCondition(ConstantText(t, false, j)) != Some(Literal(Number(j.text)))
  {
    var text := ConstantText(t, false, j);
    if ReadCondition(text) == Some(Literal(Number(j.text))) {
      LiteralNumber(Tokenize(text), j.text, []);
      AtomIsOperand(Tokenize(text), Literal(Number(j.text)), []);
      BareToken(text);
      ClosedAlone(text);
      hide ReadOr, ReadList, Tokenize, ReadCondition, Unquote, Closed;
      assert false;
    }
  }

  // --- Patterns with more than two arguments ---

  /** Only the first two arguments of a pattern are printed, and one is too few. */
  lemma {:induction false} PatternArguments(name: string, children: seq<Filter>)
    requires Pattern(name)
    ensures |children| >= 2 ==> Sql(Function(name, children)) == Sql(Function(name, children[..2]))
    ensures |children| < 2 ==> Sql(Function(name, children)) == None
  {
    PatternNames(name);
    hide LikenessOf, Pattern;
  }
}
