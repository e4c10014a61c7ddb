/**
 A faithfully printed filter tokenizes to the words one expects of it.

 The words are those of the filter itself, in the order of the text. A text `Reads` as words
 when tokenizing it in front of nothing, or of a text that begins with a space, a comma or a
 closing parenthesis, gives the words and then the tokens of that text. This lets the words
 of a filter be put together from those of its parts. Quoted names and texts are one word
 each, numbers and keywords are bare words, and the printer puts a delimiter between any two
 words that would otherwise run together.
 */
module FilterTokens {
  import opened Ascii
  import opened Sequences
  import opened Tokens
  import opened Wrappers
  import opened Filters

  function JointWord(joint: Joint): string {
    if joint.ByAnd? then "AND" else if joint.ByOr? then "OR" else ","
  }

  function ConstantWord(t: TypeTag, isNull: bool, j: Json): string {
    if isNull then "NULL"
    else if j.JsonText? then Quote(j.s, '\'')
    else if j.JsonBool? then (if j.b then "TRUE" else "FALSE")
    else if j.JsonNumber? then j.text
    else ""
  }

  function LikeWords(k: Likeness): seq<string> {
    if k.negated then ["NOT", "LIKE"] else if k.insensitive then ["ILIKE"] else ["LIKE"]
  }

  function InParens(ws: seq<string>): seq<string> {
    ["("] + (ws + [")"])
  }

  /** The words of a faithful filter. */
  function Words(e: Filter): seq<string> {
    match e
    case Comparison(comparator, left, right) =>
      if comparator.None? then [] else Words(left) + ([ComparatorText(comparator.value)] + Words(right))
    case ColumnRef(alias) => [Quote(alias, '"')]
    case Constant(t, isNull, json) => [ConstantWord(t, isNull, json)]
    case Conjunction(tag, children) => InParens(WordsList(children, if tag.AndTag? then ByAnd else ByOr))
    case Operator(tag, children) =>
      if children == [] then []
      else
        var first := Words(children[0]);
        if tag.IsNullTag? then first + ["IS", "NULL"]
        else if tag.IsNotNullTag? then first + ["IS", "NOT", "NULL"]
        else if tag.NotTag? then ["NOT"] + InParens(first)
        else first + ((if tag.InTag? then ["IN"] else ["NOT", "IN"]) + InParens(WordsList(children[1..], ByComma)))
    case Between(input, lower, upper) =>
      Words(input) + (["BETWEEN"] + (Words(lower) + (["AND"] + Words(upper))))
    case Function(name, children) =>
      if LikenessOf(name).None? then [name] + InParens(WordsList(children, ByComma))
      else if |children| < 2 then []
      else Words(children[0]) + (LikeWords(LikenessOf(name).value) + Words(children[1]))
    case Cast(child) => Words(child)
    case Unknown(_) => []
  }

  function WordsList(children: seq<Filter>, joint: Joint): seq<string> {
    if children == [] then []
    else if |children| == 1 then Words(children[0])
    else Words(children[0]) + ([JointWord(joint)] + WordsList(children[1..], joint))
  }

  // --- Texts that read as given words, whatever follows ---

  predicate Stops(rest: string) {
    rest == "" || rest[0] == ' ' || rest[0] == ')' || rest[0] == ','
  }

  ghost predicate Reads(text: string, ws: seq<string>) {
    forall rest :: Stops(rest) ==> Tokenize(text + rest) == ws + Tokenize(rest)
  }

  lemma {:induction false} ReadsToken(t: string)
    requires Closed(t)
    ensures Reads(t, [t])
  {
    forall rest | Stops(rest)
      ensures Tokenize(t + rest) == [t] + Tokenize(rest)
    {
      assert t[0] != ' ';
      ClosedFits(t, rest);
      TokenizeFirst(t, rest);
    }
  }

  lemma {:induction false} ReadsSpaced(a: string, wa: seq<string>, b: string, wb: seq<string>)
    requires Reads(a, wa) && Reads(b, wb)
    ensures Reads(Spaced(a, b), wa + wb)
  {
    hide Tokenize;
    forall rest | Stops(rest)
      ensures Tokenize(Spaced(a, b) + rest) == (wa + wb) + Tokenize(rest)
    {
      assert Spaced(a, b) + rest == a + (" " + (b + rest));
      assert Stops(" " + (b + rest));
      TokenizeSeparated(" ", b + rest);
      ConcatAssoc(wa, wb, Tokenize(rest));
    }
  }

  lemma {:induction false} PunctToken(p: char)
    requires IsPunct(p)
    ensures Closed([p])
  {
  }

  /** Punctuation, then a text. */
  lemma {:induction false} ReadsPunct(p: char, b: string, wb: seq<string>)
    requires IsPunct(p) && Reads(b, wb)
    ensures Reads([p] + b, [[p]] + wb)
  {
    PunctToken(p);
    hide Tokenize;
    forall rest | Stops(rest)
      ensures Tokenize(([p] + b) + rest) == ([[p]] + wb) + Tokenize(rest)
    {
      ConcatAssoc([p], b, rest);
      ClosedFits([p], b + rest);
      TokenizeFirst([p], b + rest);
      ConcatAssoc([[p]], wb, Tokenize(rest));
    }
  }

  /** A text, then another that starts with a closing parenthesis or a comma. */
  lemma {:induction false} ReadsThen(a: string, wa: seq<string>, b: string, wb: seq<string>)
    requires Reads(a, wa) && Reads(b, wb) && b != "" && Stops(b)
    ensures Reads(a + b, wa + wb)
  {
    hide Tokenize;
    forall rest | Stops(rest)
      ensures Tokenize((a + b) + rest) == (wa + wb) + Tokenize(rest)
    {
      ConcatAssoc(a, b, rest);
      assert Stops(b + rest);
      ConcatAssoc(wa, wb, Tokenize(rest));
    }
  }

  lemma {:induction false} ReadsNothing()
    ensures Reads("", [])
  {
    forall rest | Stops(rest)
      ensures Tokenize("" + rest) == [] + Tokenize(rest)
    {
      assert "" + rest == rest && [] + Tokenize(rest) == Tokenize(rest);
    }
  }

  lemma {:induction false} ReadsParens(a: string, wa: seq<string>)
    requires Reads(a, wa)
    ensures Reads(Parenthesized(a), InParens(wa))
  {
    ReadsNothing();
    ReadsPunct(')', "", []);
    hide Tokenize, Reads;
    assert [')'] + "" == ")" && [")"] + [] == [")"];
    ReadsThen(a, wa, ")", [")"]);
    ReadsPunct('(', a + ")", wa + [")"]);
  }

  lemma {:induction false} ReadsJoint(a: string, wa: seq<string>, joint: Joint, b: string, wb: seq<string>)
    requires Reads(a, wa) && Reads(b, wb)
    ensures Reads(a + (joint.Text() + b), wa + ([JointWord(joint)] + wb))
  {
    hide Tokenize, Reads;
    if joint.ByComma? {
      ReadsNothing();
      ReadsSpaced("", [], b, wb);
      assert Spaced("", b) == " " + b && [] + wb == wb;
      ReadsPunct(',', " " + b, wb);
      ReadsThen(a, wa, [','] + (" " + b), [","] + wb);
      assert [','] + (" " + b) == ", " + b;
    } else {
      var word := JointWord(joint);
      KeywordTokens();
      ReadsToken(word);
      ReadsSpaced(word, [word], b, wb);
      ReadsSpaced(a, wa, Spaced(word, b), [word] + wb);
      assert " " + Spaced(word, b) == joint.Text() + b;
    }
  }

  lemma {:induction false} BareToken(w: string)
    requires w != "" && forall i :: 0 <= i < |w| ==> !IsDelimiter(w[i])
    ensures Closed(w)
  {
    BareLengthWhole(w, " ");
    assert (w + " ")[0] == w[0];
  }

  lemma {:induction false} BareLengthWhole(w: string, rest: string)
    requires forall i :: 0 <= i < |w| ==> !IsDelimiter(w[i])
    requires rest == "" || IsDelimiter(rest[0])
    ensures BareLength(w + rest) == |w|
  {
    if w == "" {
      assert w + rest == rest;
    } else {
      ConsConcat(w, rest);
      BareLengthWhole(w[1..], rest);
    }
  }

  lemma {:induction false} KeywordTokens()
    ensures Closed("AND") && Closed("OR") && Closed("NOT") && Closed("IS") && Closed("IN") && Closed("NULL")
    ensures Closed("TRUE") && Closed("FALSE") && Closed("LIKE") && Closed("ILIKE") && Closed("BETWEEN")
  {
    hide Closed;
    BareToken("AND");
    BareToken("OR");
    BareToken("NOT");
    BareToken("IS");
    BareToken("IN");
    BareToken("NULL");
    BareToken("TRUE");
    BareToken("FALSE");
    BareToken("LIKE");
    BareToken("ILIKE");
    BareToken("BETWEEN");
  }

  lemma {:induction false} ComparatorToken(c: Comparator)
    ensures Closed(ComparatorText(c))
  {
    hide Closed;
    BareToken(ComparatorText(c));
  }

  // --- Every faithful filter ---

  lemma {:induction false} DoubleNothing(s: string, q: char)
    requires q !in s
    ensures Double(s, q) == s
  {
    if s != "" {
      DoubleNothing(s[1..], q);
    }
  }

  lemma {:induction false} ColumnReads(alias: string)
    requires '"' !in alias
    ensures Reads("\"" + (alias + "\""), [Quote(alias, '"')])
  {
    DoubleNothing(alias, '"');
    QuoteClosedToken(alias, '"');
    assert "\"" + (alias + "\"") == Quote(alias, '"');
    ReadsToken(Quote(alias, '"'));
  }

  lemma {:induction false} ConstantReads(t: TypeTag, isNull: bool, j: Json)
    requires FaithfulConstant(t, isNull, j)
    ensures ConstantText(t, isNull, j) == ConstantWord(t, isNull, j)
    ensures Closed(ConstantWord(t, isNull, j))
  {
    KeywordTokens();
    if !isNull {
      if j.JsonText? {
        QuoteClosedToken(j.s, '\'');
      } else if j.JsonBool? {
        assert Upper("true") == "TRUE" && Upper("false") == "FALSE";
      } else {
        BareToken(j.text);
      }
    }
  }

  lemma {:induction false} ReadsTwo(
    a: string, wa: seq<string>, word: string, ws: seq<string>, b: string, wb: seq<string>)
    requires Reads(a, wa) && Reads(word, ws) && Reads(b, wb)
    ensures Reads(Spaced(a, Spaced(word, b)), wa + (ws + wb))
  {
    ReadsSpaced(word, ws, b, wb);
    ReadsSpaced(a, wa, Spaced(word, b), ws + wb);
  }

  lemma {:induction false} ReadsWords()
    ensures Reads("NOT", ["NOT"]) && Reads("AND", ["AND"]) && Reads("IN", ["IN"]) && Reads("BETWEEN", ["BETWEEN"])
    ensures Reads("LIKE", ["LIKE"]) && Reads("ILIKE", ["ILIKE"]) && Reads("NOT LIKE", ["NOT", "LIKE"])
    ensures Reads("NOT IN", ["NOT", "IN"]) && Reads("IS NULL", ["IS", "NULL"])
    ensures Reads("IS NOT NULL", ["IS", "NOT", "NULL"])
  {
    KeywordTokens();
    hide Tokenize, Closed, Reads;
    ReadsToken("NOT");
    ReadsToken("AND");
    ReadsToken("IN");
    ReadsToken("BETWEEN");
    ReadsToken("LIKE");
    ReadsToken("ILIKE");
    ReadsToken("IS");
    ReadsToken("NULL");
    ReadsSpaced("NOT", ["NOT"], "LIKE", ["LIKE"]);
    ReadsSpaced("NOT", ["NOT"], "IN", ["IN"]);
    ReadsSpaced("IS", ["IS"], "NULL", ["NULL"]);
    ReadsSpaced("NOT", ["NOT"], "NULL", ["NULL"]);
    ReadsSpaced("IS", ["IS"], Spaced("NOT", "NULL"), ["NOT"] + ["NULL"]);
    assert Spaced("NOT", "LIKE") == "NOT LIKE" && Spaced("NOT", "IN") == "NOT IN" && Spaced("IS", "NULL") == "IS NULL";
    assert Spaced("IS", Spaced("NOT", "NULL")) == "IS NOT NULL";
    assert ["NOT"] + ["LIKE"] == ["NOT", "LIKE"] && ["NOT"] + ["IN"] == ["NOT", "IN"];
    assert ["IS"] + ["NULL"] == ["IS", "NULL"] && ["IS"] + (["NOT"] + ["NULL"]) == ["IS", "NOT", "NULL"];
  }

  /** The printed text of a faithful filter is there, and reads as its words. */
  lemma {:induction false} SqlReads(e: Filter)
    requires Faithful(e)
    ensures Sql(e).Some? && Reads(Sql(e).value, Words(e))
  {
    match e
    case Comparison(comparator, left, right) =>
      SqlReads(left);
      SqlReads(right);
      hide Reads;
      var op := ComparatorText(comparator.value);
      ComparatorToken(comparator.value);
      ReadsToken(op);
      ReadsTwo(Sql(left).value, Words(left), op, [op], Sql(right).value, Words(right));
    case ColumnRef(alias) =>
      ColumnReads(alias);
    case Constant(t, isNull, json) =>
      ConstantReads(t, isNull, json);
      ReadsToken(ConstantWord(t, isNull, json));
    case Conjunction(tag, children) =>
      var joint := if tag.AndTag? then ByAnd else ByOr;
      PartsRead(children, joint);
      hide Reads;
      ReadsParens(JoinParts(Parts(children), joint), WordsList(children, joint));
    case Operator(_, _) =>
      OperatorReads(e);
    case Between(input, lower, upper) =>
      SqlReads(input);
      SqlReads(lower);
      SqlReads(upper);
      ReadsWords();
      hide Reads;
      var bounds := Spaced(Sql(lower).value, Spaced("AND", Sql(upper).value));
      ReadsTwo(Sql(lower).value, Words(lower), "AND", ["AND"], Sql(upper).value, Words(upper));
      ReadsTwo(Sql(input).value, Words(input), "BETWEEN", ["BETWEEN"], bounds, Words(lower) + (["AND"] + Words(upper)));
    case Function(_, _) =>
      FunctionReads(e);
    case Cast(child) =>
      SqlReads(child);
  }

  lemma {:induction false} OperatorReads(e: Filter)
    requires Faithful(e) && e.Operator?
    ensures Sql(e).Some? && Reads(Sql(e).value, Words(e))
    decreases e, 0
  {
    var first := e.children[0];
    SqlReads(first);
    if e.operator.InTag? || e.operator.NotInTag? {
      PartsRead(e.children[1..], ByComma);
      hide Reads, JoinParts, WordsList, Parts, InParens;
      ListReads(e);
    } else {
      TestReads(Sql(first).value, Words(first));
      hide Reads, InParens, Faithful;
    }
  }

  lemma {:induction false} ListReads(e: Filter)
    requires e.Operator? && (e.operator.InTag? || e.operator.NotInTag?) && |e.children| >= 2
    requires Sql(e.children[0]).Some? && Reads(Sql(e.children[0]).value, Words(e.children[0]))
    requires var rest := e.children[1..];
             Parts(rest) != [] && Reads(JoinParts(Parts(rest), ByComma), WordsList(rest, ByComma))
    ensures Sql(e).Some? && Reads(Sql(e).value, Words(e))
  {
    var first, rest := e.children[0], e.children[1..];
    hide Reads, JoinParts, WordsList, Parts, InParens;
    InReads(Sql(first).value, Words(first), e.operator.NotInTag?,
            JoinParts(Parts(rest), ByComma), WordsList(rest, ByComma));
  }

  lemma {:induction false} InReads(first: string, ws: seq<string>, negated: bool, list: string, items: seq<string>)
    requires Reads(first, ws) && Reads(list, items)
    ensures Reads(Spaced(first, Spaced(if negated then "NOT IN" else "IN", Parenthesized(list))),
                  ws + ((if negated then ["NOT", "IN"] else ["IN"]) + InParens(items)))
  {
    ReadsWords();
    hide Reads;
    ReadsParens(list, items);
    ReadsTwo(first, ws, if negated then "NOT IN" else "IN", if negated then ["NOT", "IN"] else ["IN"],
             Parenthesized(list), InParens(items));
  }

  lemma {:induction false} TestReads(first: string, ws: seq<string>)
    requires Reads(first, ws)
    ensures Reads(Spaced(first, "IS NULL"), ws + ["IS", "NULL"])
    ensures Reads(Spaced(first, "IS NOT NULL"), ws + ["IS", "NOT", "NULL"])
    ensures Reads(Spaced("NOT", Parenthesized(first)), ["NOT"] + InParens(ws))
  {
    ReadsWords();
    hide Reads;
    ReadsSpaced(first, ws, "IS NULL", ["IS", "NULL"]);
    ReadsSpaced(first, ws, "IS NOT NULL", ["IS", "NOT", "NULL"]);
    ReadsParens(first, ws);
    ReadsSpaced("NOT", ["NOT"], Parenthesized(first), InParens(ws));
  }

  /** The printer takes each name for what it is. */
  lemma {:induction false} PatternNames(name: string)
    ensures LikenessOf(name).Some? <==> Pattern(name)
    ensures Named(name, "~~", "like") ==> LikenessOf(name) == Some(Likeness(false, false))
    ensures Named(name, "!~~", "not_like") ==> LikenessOf(name) == Some(Likeness(true, false))
    ensures Named(name, "~~~", "ilike") ==> LikenessOf(name) == Some(Likeness(false, true))
  {
  }

  lemma {:induction false} FunctionReads(e: Filter)
    requires Faithful(e) && e.Function?
    ensures Sql(e).Some? && Reads(Sql(e).value, Words(e))
    decreases e, 0
  {
    var name, children := e.name, e.children;
    PatternNames(name);
    if Pattern(name) {
      var k := LikenessOf(name).value;
      assert FaithfulAll(children[1..]) && children[1..][0] == children[1];
      SqlReads(children[0]);
      SqlReads(children[1]);
      ReadsWords();
      hide Reads;
      ReadsTwo(Sql(children[0]).value, Words(children[0]), LikeWord(k), LikeWords(k),
               Sql(children[1]).value, Words(children[1]));
    } else {
      if children == [] {
        ReadsNothing();
      } else {
        PartsRead(children, ByComma);
      }
      var list := JoinParts(Parts(children), ByComma);
      BareToken(name);
      ReadsParens(list, WordsList(children, ByComma));
      hide Tokenize;
      forall rest | Stops(rest)
        ensures Tokenize((name + Parenthesized(list)) + rest) == Words(e) + Tokenize(rest)
      {
        ConcatAssoc(name, Parenthesized(list), rest);
        ClosedFits(name, Parenthesized(list) + rest);
        TokenizeFirst(name, Parenthesized(list) + rest);
        ConcatAssoc([name], InParens(WordsList(children, ByComma)), Tokenize(rest));
      }
    }
  }

  lemma {:induction false} PartsRead(children: seq<Filter>, joint: Joint)
    requires FaithfulAll(children) && children != []
    ensures |Parts(children)| == |children|
    ensures Reads(JoinParts(Parts(children), joint), WordsList(children, joint))
  {
    SqlReads(children[0]);
    if |children| == 1 {
      assert Parts(children[1..]) == [];
      assert Parts(children) == [Sql(children[0]).value];
    } else {
      PartsRead(children[1..], joint);
      hide Reads;
      var parts := Parts(children);
      assert parts[1..] == Parts(children[1..]);
      ReadsJoint(Sql(children[0]).value, Words(children[0]), joint,
                 JoinParts(Parts(children[1..]), joint), WordsList(children[1..], joint));
    }
  }
}
