/**
 A configuration whose normalised text is not one statement: the printer replaces the newline
 that ends a comment by a space, and the comment then swallows an opening quote.

 The configuration has a line comment inside its option block, a newline, and a quoted word
 that holds a semicolon. To the tokenizer a comment is words like any others, so the option
 block is printed again on one line; to the statement splitter the rest of that line is then
 comment, and the quoted word ends where it should begin. The lexemes of the printed text are
 worked out part by part.
 */
module Commented {
  import opened Ascii
  import opened Sequences
  import opened Lexemes
  import opened Statements
  import opened Wrappers
  import opened Tokens
  import opened Options
  import opened Attach
  import opened CodeTexts
  import opened Reattach

  // --- Lexing text given by its parts ---

  predicate Simple(c: char) {
    IsAlphanumeric(c) || c == ' ' || c == '(' || c == ')' || c == '\n'
  }

  function Plains(w: string): (ls: seq<Lexeme>)
    ensures |ls| == |w| && forall i :: 0 <= i < |w| ==> ls[i] == Plain(w[i])
  {
    seq(|w|, i requires 0 <= i < |w| => Plain(w[i]))
  }

  lemma {:induction false} LexFirst(l: Lexeme, rest: string)
    requires Fits(l, rest)
    ensures Lex(l.Text() + rest) == [l] + Lex(rest)
  {
    assert (l.Text() + rest)[|l.Text()|..] == rest;
  }

  lemma {:induction false} SimpleFits(c: char, rest: string)
    requires Simple(c)
    ensures Fits(Plain(c), rest)
  {
    assert ([c] + rest)[0] == c;
  }

  lemma {:induction false} PlainsCons(w: string)
    requires w != ""
    ensures Plains(w) == [Plain(w[0])] + Plains(w[1..])
  {
  }

  lemma {:induction false} LexSimple(w: string, rest: string)
    requires forall i :: 0 <= i < |w| ==> Simple(w[i])
    ensures Lex(w + rest) == Plains(w) + Lex(rest)
  {
    hide Lex, Fits, Simple;
    if w == "" {
      assert w + rest == rest;
    } else {
      LexSimple(w[1..], rest);
      SimpleFits(w[0], w[1..] + rest);
      LexFirst(Plain(w[0]), w[1..] + rest);
      ConsConcat(w, rest);
      PlainsCons(w);
      ConcatAssoc([Plain(w[0])], Plains(w[1..]), Lex(rest));
    }
  }

  lemma {:induction false} LineLengthBody(body: string, rest: string)
    requires forall i :: 0 <= i < |body| ==> body[i] != '\n'
    requires rest != "" && rest[0] == '\n'
    ensures LineLength(body + rest) == |body|
  {
    if body == "" {
      assert body + rest == rest;
    } else {
      assert (body + rest)[1..] == body[1..] + rest;
      LineLengthBody(body[1..], rest);
    }
  }

  lemma {:induction false} CommentFits(body: string, rest: string)
    requires forall i :: 0 <= i < |body| ==> body[i] != '\n'
    requires rest != "" && rest[0] == '\n'
    ensures Fits(Comment("--" + body), rest)
  {
    var s := ("--" + body) + rest;
    assert s[0] == '-' && s[1] == '-' && s[2..] == body + rest;
    LineLengthBody(body, rest);
    assert s[..2 + |body|] == "--" + body;
  }

  lemma {:induction false} QuoteFits(v: string, q: char, rest: string)
    requires IsQuote(q) && (rest == "" || rest[0] != q)
    ensures Fits(Quoted(Quote(v, q)), rest)
  {
    hide QuoteLength, Fits, First, Double;
    var t := Quote(v, q);
    QuotedFits(t, rest);
    assert t[1..] + rest == Double(v, q) + ([q] + rest);
    QuoteLengthDouble(v, q, rest);
  }

  lemma {:induction false} OpenQuoteFits()
    ensures Fits(Quoted("')"), "")
  {
    QuotedFits("')", "");
    assert "')"[1..] + "" == ")" && QuoteLength(")", '\'') == 1;
  }

  lemma {:induction false} CutThrough(current: seq<Lexeme>, a: seq<Lexeme>, b: seq<Lexeme>)
    requires forall i :: 0 <= i < |a| ==> !a[i].Semi?
    ensures CutFrom(current, a + b) == CutFrom(current + a, b)
    decreases |a|
  {
    if a == [] {
      assert a + b == b && current + a == current;
    } else {
      assert (a + b)[1..] == a[1..] + b;
      CutThrough(current + [a[0]], a[1..], b);
      assert (current + [a[0]]) + a[1..] == current + a;
    }
  }

  // --- The configuration ---

  const LITERAL := Quote("\n;", '\'')

  function Block(): string {
    "--y" + ("\n" + (LITERAL + ")"))
  }

  /** An ATTACH of `x` whose option block holds a line comment, then a literal of a newline
      and a semicolon. */
  function Config(): string {
    "ATTACH" + (" " + ("x" + (" " + ("(" + Block()))))
  }

  /** The option block as the normaliser prints it. */
  function Printed(): string {
    "(" + ("--y" + (" " + (LITERAL + ")")))
  }

  lemma {:induction false} LiteralText()
    ensures LITERAL == "'\n;'"
  {
    assert Double(";", '\'') == ";" by {
      assert ";"[1..] == "";
    }
    assert "\n;"[1..] == ";" && Double("\n;", '\'') == "\n;";
  }

  lemma {:induction false} LiteralToken()
    ensures Closed(LITERAL) && LITERAL[0] == '\''
  {
    QuoteClosedToken("\n;", '\'');
  }

  lemma {:induction false} TokenizeNewline(rest: string)
    ensures Tokenize("\n" + rest) == Tokenize(rest)
  {
    assert ("\n" + rest)[1..] == rest;
  }

  lemma {:induction false} TokenizeBlock()
    ensures Tokenize(Block()) == ["--y", LITERAL, ")"]
  {
    hide Tokenize, Closed, Token, FitsToken;
    var tail := LITERAL + ")";
    LiteralToken();
    BareWord("--y");
    ConstantTokens();
    TokenizeNothing();
    TokenizeNewline(tail);
    ClosedFits(LITERAL, ")");
    ClosedFits("--y", "\n" + tail);
    ClosedFits(")", "");
    TokenizeFirst(")", "");
    TokenizeFirst(LITERAL, ")");
    TokenizeFirst("--y", "\n" + tail);
  }

  lemma {:induction false} TokenizeConfig()
    ensures Tokenize(Config()) == ["ATTACH", "x", "(", "--y", LITERAL, ")"]
  {
    hide Tokenize, Closed, Token, FitsToken, Block;
    TokenizeBlock();
    BareWord("ATTACH");
    BareWord("x");
    ConstantTokens();
    ClosedFits("(", Block());
    TokenizeFirst("(", Block());
    TokenizeSpaced("x", "(" + Block());
    TokenizeSpaced("ATTACH", "x" + (" " + ("(" + Block())));
  }

  lemma {:induction false} TokenizeNothing()
    ensures Tokenize("") == [] && ")" + "" == ")"
  {
  }

  lemma {:induction false} RebuildBlock()
    ensures Rebuild(["(", "--y", LITERAL, ")"]) == Printed()
  {
    LiteralText();
    assert ["(", "--y", LITERAL, ")"][1..] == ["--y", LITERAL, ")"];
    assert ["--y", LITERAL, ")"][1..] == [LITERAL, ")"] && [LITERAL, ")"][1..] == [")"];
    assert Tail(LITERAL, [")"]) == ")";
    assert Tail("--y", [LITERAL, ")"]) == " " + LITERAL + ")";
  }

  lemma {:induction false} ConfigParses()
    ensures ParseAttach(Config()) == Some(ParsedAttach("x", Printed()))
  {
    TokenizeConfig();
    RebuildBlock();
    var ts := ["ATTACH", "x", "(", "--y", LITERAL, ")"];
    assert Lower("x")[0] == 'x' && Lower("(")[0] == '(';
    assert Lower("OR")[0] == 'o' && Lower("DATABASE")[0] == 'd' && Lower("IF")[0] == 'i' && Lower("AS")[0] == 'a';
    hide Lower, Rebuild;
    assert PathIndex(ts) == 1 && OptionsIndex(ts, 1) == 2;
    assert ts[2..] == ["(", "--y", LITERAL, ")"];
  }

  lemma {:induction false} LexBlock()
    ensures Lex(Block()) == [Comment("--y"), Plain('\n'), Quoted(LITERAL), Plain(')')]
  {
    hide Lex, Fits;
    var tail := LITERAL + ")";
    SimpleFits(')', "");
    QuoteFits("\n;", '\'', ")");
    SimpleFits('\n', tail);
    assert "--" + "y" == "--y";
    CommentFits("y", "\n" + tail);
    LexFirst(Comment("--y"), "\n" + tail);
    LexFirst(Plain('\n'), tail);
    LexFirst(Quoted(LITERAL), ")");
    LexFirst(Plain(')'), "");
    LexNothing();
    assert ")" + "" == ")";
  }

  lemma {:induction false} LexConfig()
    ensures Lex(Config()) == Plains("ATTACH x (") + [Comment("--y"), Plain('\n'), Quoted(LITERAL), Plain(')')]
  {
    hide Lex, Block, Simple;
    LexBlock();
    assert Config() == "ATTACH x (" + Block();
    assert forall i :: 0 <= i < |"ATTACH x ("| ==> Simple("ATTACH x ("[i]) by {
      SimpleHead();
    }
    LexSimple("ATTACH x (", Block());
  }

  lemma {:induction false} SimpleHead()
    ensures forall i :: 0 <= i < |"ATTACH x ("| ==> Simple("ATTACH x ("[i])
    ensures forall i :: 0 <= i < |"ATTACH OR REPLACE x AS "| ==> Simple("ATTACH OR REPLACE x AS "[i])
  {
  }

  lemma {:induction false} ConfigNoSemi()
    ensures OneStatement(Config())
  {
    LexConfig();
    hide Lex, Config;
    var ls := Plains("ATTACH x (") + [Comment("--y"), Plain('\n'), Quoted(LITERAL), Plain(')')];
    assert forall i :: 0 <= i < |ls| ==> !ls[i].Semi?;
  }

  lemma {:induction false} ConfigSplits()
    ensures Split(Config()) == [Config()]
  {
    ConfigNoSemi();
    assert Config() != "";
    hide *;
    OneStatementSplits(Config());
  }

  lemma {:induction false} ConfigKeyword()
    ensures Keyword(Config()) == Some("ATTACH")
  {
    var rest := " " + ("x" + (" " + ("(" + Block())));
    WordText("ATTACH", rest);
    LexConfig();
    hide Lex, Block;
    var ls := Lex(Config());
    assert ls[0] == Plain('A');
    assert SkipBlanks(ls) == ls;
    assert Upper("ATTACH") == "ATTACH";
  }

  lemma {:induction false} ConfigIsOneStatement()
    ensures SingleStatement(Config()) == Some(Config())
  {
    ConfigSplits();
    assert Config()[0] == 'A' && Config()[|Config()| - 1] == ')';
    TrimIdentity(Config());
    hide Split, Trim, Config;
    assert NonBlank([Config()][1..]) == [];
    assert NonBlank([Config()]) == [Config()];
  }

  // --- What it normalises to ---

  function Out(name: string): string {
    Print("x", name, Printed())
  }

  const RESPLIT := "--y '" + ("\n" + (";" + "')"))

  lemma {:induction false} PrintedText()
    ensures " " + Printed() == " (" + RESPLIT
  {
    LiteralText();
  }

  lemma {:induction false} LexPrinted()
    ensures Lex(" " + Printed()) == Plains(" (") + [Comment("--y '"), Plain('\n'), Semi, Quoted("')")]
  {
    PrintedText();
    hide Lex, Fits, Printed;
    var tail := ";" + "')";
    OpenQuoteFits();
    SemiFits("')");
    SimpleFits('\n', tail);
    assert "--" + "y '" == "--y '";
    CommentFits("y '", "\n" + tail);
    LexSimple(" (", RESPLIT);
    LexFirst(Comment("--y '"), "\n" + tail);
    LexFirst(Plain('\n'), tail);
    LexFirst(Semi, "')");
    LexFirst(Quoted("')"), "");
    LexNothing();
    assert "')" + "" == "')";
  }

  lemma {:induction false} SemiFits(rest: string)
    ensures Fits(Semi, rest)
  {
    assert (";" + rest)[0] == ';';
  }

  lemma {:induction false} LexNothing()
    ensures Lex("") == []
  {
  }

  /** The words before the alias, with their spaces. */
  lemma {:induction false} PrintedHead(rest: string)
    ensures Spaced(PrintedWords("x"), rest) == "ATTACH OR REPLACE x AS " + rest
  {
    var w0 := PrintedWords("x");
    var w1 := w0[1..];
    var w2 := w1[1..];
    var w3 := w2[1..];
    var w4 := w3[1..];
    assert w0[0] == "ATTACH";
    assert w1[0] == "OR" && w2[0] == "REPLACE" && w3[0] == "x" && w4[0] == "AS" && w4[1..] == [];
    assert Spaced(w4, rest) == "AS " + rest;
    assert Spaced(w3, rest) == "x AS " + rest;
    assert Spaced(w2, rest) == "REPLACE x AS " + rest;
    assert Spaced(w1, rest) == "OR REPLACE x AS " + rest;
  }

  function Before(name: string): seq<Lexeme> {
    Plains("ATTACH OR REPLACE x AS ")
      + ([Quoted(QuoteIdentifier(name))] + (Plains(" (") + [Comment("--y '"), Plain('\n')]))
  }

  lemma {:induction false} LexOut(name: string)
    ensures Lex(Out(name)) == Before(name) + [Semi, Quoted("')")]
  {
    var alias := QuoteIdentifier(name);
    var end := " " + Printed();
    assert Out(name) == Spaced(PrintedWords("x"), alias + end);
    assert end[0] == ' ';
    SimpleHead();
    hide Lex, Fits, Printed, Out, Spaced, Simple, QuoteIdentifier;
    LexPrinted();
    AliasFits(name, end);
    LexFirst(Quoted(alias), end);
    LexSimple("ATTACH OR REPLACE x AS ", alias + end);
    PrintedHead(alias + end);
    Regroup(Plains("ATTACH OR REPLACE x AS "), Quoted(alias), Plains(" ("));
  }

  lemma {:induction false} AliasFits(name: string, rest: string)
    requires rest == "" || rest[0] != '"'
    ensures Fits(Quoted(QuoteIdentifier(name)), rest)
  {
    QuoteFits(name, '"', rest);
  }

  lemma {:induction false} Regroup(a: seq<Lexeme>, l: Lexeme, b: seq<Lexeme>)
    ensures a + ([l] + (b + [Comment("--y '"), Plain('\n'), Semi, Quoted("')")]))
         == (a + ([l] + (b + [Comment("--y '"), Plain('\n')]))) + [Semi, Quoted("')")]
  {
  }

  lemma {:induction false} CutOut(name: string)
    ensures Cut(Lex(Out(name))) == [Before(name), [Quoted("')")]]
  {
    LexOut(name);
    hide Lex, Out;
    var before := Before(name);
    assert forall i :: 0 <= i < |before| ==> !before[i].Semi?;
    hide Before;
    CutThrough([], before, [Semi, Quoted("')")]);
    assert [] + before == before && [Semi, Quoted("')")][1..] == [Quoted("')")];
    assert [Quoted("')")][1..] == [];
    CutNoSemi([], [Quoted("')")]);
    assert [] + [Quoted("')")] == [Quoted("')")];
  }

  lemma {:induction false} OutSplits(name: string)
    ensures |NonBlank(Split(Out(name)))| == 2
  {
    var first := Render(Before(name));
    CutOut(name);
    assert Before(name)[0] == Plain('A');
    RenderStart(Before(name));
    assert Render([Quoted("')")]) == "')";
    hide Lex, Before, Out, Render, Cut, Trim;
    assert Split(Out(name)) == [first, "')"];
    TrimNonEmpty(first);
    TrimNonEmpty("')");
    assert [first, "')"][1..] == ["')"] && ["')"][1..] == [];
    assert NonBlank(["')"]) == ["')"];
  }

  lemma {:induction false} TrimEndKeepsStart(s: string)
    requires s != "" && !IsWhitespace(s[0])
    ensures TrimEnd(s) != ""
  {
    if IsWhitespace(s[|s| - 1]) {
      TrimEndKeepsStart(s[..|s| - 1]);
    }
  }

  lemma {:induction false} TrimNonEmpty(s: string)
    requires s != "" && !IsWhitespace(s[0])
    ensures Trim(s) != ""
  {
    TrimEndKeepsStart(s);
  }

  lemma {:induction false} PrintedTrim()
    ensures Trim(Printed()) == Printed()
  {
    assert Printed()[0] == '(' && Printed()[|Printed()| - 1] == ')';
    TrimIdentity(Printed());
  }

  lemma {:induction false} OutRefused(name: string)
    ensures SingleStatement(Out(name)) == None
  {
    OutSplits(name);
    hide Split, NonBlank, Out;
  }

  lemma {:induction false} NormalizeParsed(config: string, name: string, parsed: ParsedAttach)
    requires SingleStatement(config) == Some(config) && Keyword(config) == Some("ATTACH")
    requires ParseAttach(config) == Some(parsed)
    ensures Normalize(config, name, false) == Some(Print(parsed.path, name, Trim(parsed.options)))
  {
    hide SingleStatement, Keyword, ParseAttach, Print, Trim;
  }

  /** The normalised text of this configuration is two statements, so normalising it fails. */
  lemma {:induction false} CommentBreaksNormalizing(name: string)
    ensures Normalize(Config(), name, false) == Some(Out(name))
    ensures Normalize(Out(name), name, false) == None
  {
    ConfigIsOneStatement();
    ConfigKeyword();
    ConfigParses();
    PrintedTrim();
    OutRefused(name);
    NormalizeParsed(Config(), name, ParsedAttach("x", Printed()));
    assert Normalize(Out(name), name, false) == None by {
      hide SingleStatement, Out;
    }
    hide SingleStatement, Normalize, Keyword, ParseAttach, Config, Printed, Trim;
  }
}
