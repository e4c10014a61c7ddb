/**
 Normalising twice, and what admission says to a normalised statement.

 A printed statement has the words of the printer, the path, the quoted name and the option text.
 Its words and the name are code text whatever the configuration was, so what decides whether it
 is one statement is the path and the option text alone. When it is, it parses to what it was
 printed from, and rewriting or trimming the options again changes nothing. Admission looks at
 the leading keyword before anything else, and the first piece of the printed text begins with
 that keyword however the rest of it is cut.
 */
module Reattach {
  import opened Ascii
  import opened Lexemes
  import opened Statements
  import opened Wrappers
  import opened Tokens
  import opened Options
  import opened Attach
  import opened CodeTexts
  import Admission

  // --- The printed statement ---

  lemma {:induction false} CodeAlias(name: string, options: string)
    requires CodeText(options)
    ensures CodeText(QuoteIdentifier(name) + Suffix(options))
  {
    var alias := QuoteIdentifier(name);
    QuoteClosedToken(name, '"');
    hide CodeText, Closed, Token;
    CodeQuoted(alias);
    if options == "" {
      assert alias + Suffix(options) == alias;
    } else {
      CodeSpaced(alias, options);
    }
  }

  lemma {:induction false} CodePrint(path: string, name: string, options: string)
    requires Closed(path) && CodeText(path) && CodeText(options)
    ensures CodeText(Print(path, name, options))
  {
    hide CodeText, Closed;
    PrintedWordsClosed(path);
    CodeAlias(name, options);
    CodeWord("AS");
    CodeWord("OR");
    CodeWord("REPLACE");
    CodeWord("ATTACH");
    CodeWords(PrintedWords(path), QuoteIdentifier(name) + Suffix(options));
  }

  lemma {:induction false} WordText(w: string, rest: string)
    requires forall c :: c in w ==> IsAlphanumeric(c)
    requires rest == "" || rest[0] == ' '
    ensures Word(Lex(w + rest)) == w
  {
    var s := w + rest;
    if w == "" {
      assert s == rest;
    } else {
      assert s[1..] == w[1..] + rest && s[0] == w[0] && w[0] in w;
      assert First(s) == Plain(w[0]);
      assert Lex(s) == [Plain(w[0])] + Lex(s[1..]);
      WordText(w[1..], rest);
    }
  }

  lemma {:induction false} SpacedLast(words: seq<string>, rest: string)
    requires rest != ""
    ensures Spaced(words, rest) != "" && Last(Spaced(words, rest)) == Last(rest)
  {
    if words != [] {
      SpacedLast(words[1..], rest);
    }
  }

  lemma {:induction false} PrintedEnds(path: string, name: string, options: string)
    requires Trim(options) == options
    ensures Trim(Print(path, name, options)) == Print(path, name, options)
  {
    var rest := QuoteIdentifier(name) + Suffix(options);
    TrimEnds(options);
    hide Trim;
    assert Last(rest) == if options == "" then '"' else Last(options);
    SpacedLast(PrintedWords(path), rest);
    assert Print(path, name, options)[0] == 'A';
    TrimIdentity(Print(path, name, options));
  }

  lemma {:induction false} PrintedSingle(path: string, name: string, options: string)
    requires OneStatement(Print(path, name, options)) && Trim(options) == options
    ensures var out := Print(path, name, options); Split(out) == [out] && SingleStatement(out) == Some(out)
  {
    var out := Print(path, name, options);
    assert out[0] == 'A';
    OneStatementSplits(out);
    PrintedEnds(path, name, options);
    assert NonBlank([out][1..]) == [];
    assert NonBlank([out]) == [out];
  }

  /** A printed statement that is one statement is a fixed point. */
  lemma {:induction false} NormalizePrinted(path: string, name: string, options: string, readOnly: bool)
    requires OneStatement(Print(path, name, options)) && Trim(options) == options
    requires ReadsBack(path, name, options) && FinalOptions(options, readOnly) == options
    ensures var out := Print(path, name, options);
            Split(out) == [out] && Normalize(out, name, readOnly) == Some(out)
  {
    PrintedSingle(path, name, options);
    PrintedKeyword(path, name, options);
    hide OneStatement, Split, SingleStatement, ParseAttach, Keyword, Print, FinalOptions;
  }

  /** What the normaliser prints as options is trimmed, and normalising it changes nothing. */
  lemma {:induction false} FinalTwice(options: string, readOnly: bool)
    requires Trim(options) == options
    ensures var final := FinalOptions(options, readOnly); Trim(final) == final && FinalOptions(final, readOnly) == final
  {
    if readOnly {
      EnforceShape(options);
      EnforceIdempotent(options);
    }
  }

  /** For a path that is a terminated token other than DATABASE, the output is one statement
      that normalises to itself exactly when it has no semicolon outside quotes and comments. */
  lemma {:induction false} NormalizeAgain(config: string, name: string, readOnly: bool)
    requires Normalize(config, name, readOnly).Some?
    requires var path := ParseAttach(SingleStatement(config).value).value.path;
             Closed(path) && !EqIgnoreCase(path, "DATABASE")
    ensures var out := Normalize(config, name, readOnly).value;
            (Split(out) == [out] && Normalize(out, name, readOnly) == Some(out)) <==> OneStatement(out)
  {
    var statement := SingleStatement(config).value;
    var p := ParseAttach(statement).value;
    var out := Normalize(config, name, readOnly).value;
    var options := FinalOptions(p.options, readOnly);
    NormalizeReadsBack(config, name, readOnly);
    SingleTrimmed(config);
    ParsedBlock(statement);
    assert out == Print(p.path, name, options) && out[0] == 'A';
    hide Normalize, SingleStatement, Split, ParseAttach, Closed, EqIgnoreCase, Token, BlockText, Print, Lex, Trim;
    FinalTwice(p.options, readOnly);
    if OneStatement(out) {
      NormalizePrinted(p.path, name, options, readOnly);
    } else {
      OneStatementSplits(out);
    }
  }

  lemma {:induction false} WordsOneStatement(words: seq<string>, rest: string)
    requires forall i :: 0 <= i < |words| ==> Closed(words[i]) && CodeText(words[i])
    ensures OneStatement(Spaced(words, rest)) <==> OneStatement(rest)
  {
    if words != [] {
      hide Closed, Lex;
      WordsOneStatement(words[1..], rest);
      LexSpaced(words[0], Spaced(words[1..], rest));
      SemiAfter(words[0], Spaced(words[1..], rest));
    }
  }

  lemma {:induction false} SemiAfter(t: string, rest: string)
    requires CodeText(t) && Lex(t + (" " + rest)) == Lex(t) + ([Plain(' ')] + Lex(rest))
    ensures OneStatement(t + (" " + rest)) <==> OneStatement(rest)
  {
    hide Lex;
    var ls := Lex(t) + ([Plain(' ')] + Lex(rest));
    assert forall i :: 0 <= i < |Lex(rest)| ==> ls[|Lex(t)| + 1 + i] == Lex(rest)[i];
    assert forall i :: |Lex(t)| + 1 <= i < |ls| ==> ls[i] == Lex(rest)[i - |Lex(t)| - 1];
  }

  /** For a path of code text the condition is on the options alone, before printing. */
  lemma {:induction false} PrintOneStatement(path: string, name: string, options: string)
    requires Closed(path) && CodeText(path)
    ensures OneStatement(Print(path, name, options)) <==> OneStatement(options)
  {
    hide CodeText, Closed, Lex;
    var alias := QuoteIdentifier(name);
    PrintedWordsClosed(path);
    CodeWord("AS");
    CodeWord("OR");
    CodeWord("REPLACE");
    CodeWord("ATTACH");
    QuoteClosedToken(name, '"');
    CodeQuoted(alias);
    WordsOneStatement(PrintedWords(path), alias + Suffix(options));
    if options == "" {
      assert alias + Suffix(options) == alias;
      CodeIsOneStatement(alias);
      EmptyIsOneStatement();
    } else {
      WordsOneStatement([alias], options);
      assert Spaced([alias], options) == alias + (" " + options) by {
        assert [alias][1..] == [];
      }
    }
  }

  lemma {:induction false} EmptyIsOneStatement()
    ensures OneStatement("")
  {
  }

  /** So for a closed path of code text other than DATABASE: normalising again changes nothing
      exactly when the options it prints hold no semicolon outside quotes and comments. */
  lemma {:induction false} NormalizeAgainIff(config: string, name: string, readOnly: bool)
    requires Normalize(config, name, readOnly).Some?
    requires var path := ParseAttach(SingleStatement(config).value).value.path;
             Closed(path) && CodeText(path) && !EqIgnoreCase(path, "DATABASE")
    ensures var out := Normalize(config, name, readOnly).value;
            var options := FinalOptions(ParseAttach(SingleStatement(config).value).value.options, readOnly);
            (Split(out) == [out] && Normalize(out, name, readOnly) == Some(out)) <==> OneStatement(options)
  {
    var p := ParseAttach(SingleStatement(config).value).value;
    NormalizeAgain(config, name, readOnly);
    PrintOneStatement(p.path, name, FinalOptions(p.options, readOnly));
    hide OneStatement, Split, CodeText, Closed;
  }

  lemma {:induction false} CutNoComments(current: seq<Lexeme>, ls: seq<Lexeme>)
    requires NoComments(current) && NoComments(ls)
    ensures forall p :: p in CutFrom(current, ls) ==> NoComments(p)
    decreases |ls|
  {
    if ls != [] {
      if ls[0].Semi? {
        CutNoComments([], ls[1..]);
      } else {
        CutNoComments(current + [ls[0]], ls[1..]);
      }
    }
  }

  lemma {:induction false} CodeStatement(config: string)
    requires NoComments(Lex(config)) && SingleStatement(config).Some?
    ensures CodeText(SingleStatement(config).value)
  {
    var piece := NonBlank(Split(config))[0];
    NonBlankIn(Split(config));
    assert piece in Split(config);
    var i :| 0 <= i < |Split(config)| && Split(config)[i] == piece;
    var p := Cut(Lex(config))[i];
    assert p in Cut(Lex(config));
    PiecesStandalone(config);
    CutNoComments([], Lex(config));
    assert Lex(piece) == p;
    assert forall j :: 0 <= j < |p| ==> p[j] in p;
    CodeTrim(piece);
  }

  lemma {:induction false} CodeParsed(statement: string)
    requires CodeText(statement) && ParseAttach(statement).Some?
    ensures CodeText(ParseAttach(statement).value.path) && CodeText(ParseAttach(statement).value.options)
  {
    var ts := Tokenize(statement);
    CodeTokens(statement);
    TokenizeValid(statement);
    var i := PathIndex(ts);
    var o := OptionsIndex(ts, i);
    assert ts[i] in ts;
    if o < |ts| {
      assert ValidTokens(ts[o..]);
      CodeRebuild(ts[o..]);
    }
  }

  lemma {:induction false} CodeBlockWords()
    ensures CodeText("(READ_ONLY)") && CodeText("(") && CodeText(")") && CodeText(",") && CodeText("READ_ONLY")
  {
    hide CodeText;
    CodeWord("(READ_ONLY)");
    CodeWord("(");
    CodeWord(")");
    CodeWord(",");
    CodeWord("READ_ONLY");
  }

  lemma {:induction false} CodeBlock(options: string)
    requires CodeText(options)
    ensures forall t :: t in BlockTokens(ReadOnlyEntries(options)) ==> CodeText(t)
  {
    var ts := Tokenize(Trim(options));
    CodeBlockWords();
    CodeTrim(options);
    CodeTokens(Trim(options));
    assert forall t :: t in Inner(ts) ==> t in ts;
    BlockTokenSource(options);
  }

  lemma {:induction false} CodeEnforce(options: string)
    requires CodeText(options)
    ensures CodeText(EnforceReadOnly(options))
  {
    hide CodeText, Tokenize, Trim, Token, Closed, Inner, ReadOnlyEntries, BlockTokens;
    CodeBlockWords();
    if Trim(options) != "" {
      var out := BlockTokens(ReadOnlyEntries(options));
      CodeBlock(options);
      ReadOnlyTokens(options);
      assert forall i :: 0 <= i < |out| ==> out[i] in out;
      CodeRebuild(out);
    }
  }

  /** Comment-free configuration meets the condition: the output is one statement, and
      normalising it changes nothing. */
  lemma {:induction false} NormalizeIdempotent(config: string, name: string, readOnly: bool)
    requires Normalize(config, name, readOnly).Some? && NoComments(Lex(config))
    requires var path := ParseAttach(SingleStatement(config).value).value.path;
             Closed(path) && !EqIgnoreCase(path, "DATABASE")
    ensures var out := Normalize(config, name, readOnly).value;
            Split(out) == [out] && Normalize(out, name, readOnly) == Some(out)
  {
    var statement := SingleStatement(config).value;
    var p := ParseAttach(statement).value;
    NormalizeAgain(config, name, readOnly);
    hide CodeText, Closed, EqIgnoreCase, Split, SingleStatement, ParseAttach, Keyword, Trim, Print, EnforceReadOnly,
      BlockText, ReadsBack, Lex, Token, OneStatement;
    SingleTrimmed(config);
    ParsedBlock(statement);
    CodeStatement(config);
    CodeParsed(statement);
    if readOnly {
      CodeEnforce(p.options);
    }
    CodePrint(p.path, name, FinalOptions(p.options, readOnly));
    CodeIsOneStatement(Print(p.path, name, FinalOptions(p.options, readOnly)));
  }

  // --- Admission ---

  /** The first piece starts with what stands before the first semicolon. */
  lemma {:induction false} FirstPiece(current: seq<Lexeme>, ls: seq<Lexeme>, n: nat)
    requires n <= |ls| && current + ls[..n] != []
    requires forall i :: 0 <= i < n ==> !ls[i].Semi?
    ensures CutFrom(current, ls) != [] && current + ls[..n] <= CutFrom(current, ls)[0]
    decreases |ls|
  {
    if ls != [] {
      if ls[0].Semi? {
        assert current + ls[..0] == current;
      } else {
        var next := current + [ls[0]];
        var m := if n == 0 then 0 else n - 1;
        FirstPiece(next, ls[1..], m);
        assert next + ls[1..][..m] == if n == 0 then current + [ls[0]] else current + ls[..n];
        assert current + ls[..0] == current;
      }
    } else {
      assert current + ls[..n] == current;
    }
  }

  lemma {:induction false} PlainWord(w: string, rest: string)
    requires forall c :: c in w ==> IsAlphanumeric(c)
    requires rest == "" || rest[0] == ' '
    ensures |Lex(w + rest)| >= |w| && forall i :: 0 <= i < |w| ==> Lex(w + rest)[i] == Plain(w[i])
    ensures Lex(w + rest)[|w|..] == Lex(rest)
  {
    var s := w + rest;
    if w == "" {
      assert s == rest;
    } else {
      assert s[1..] == w[1..] + rest && s[0] == w[0] && w[0] in w;
      assert First(s) == Plain(w[0]);
      assert Lex(s) == [Plain(w[0])] + Lex(s[1..]);
      PlainWord(w[1..], rest);
    }
  }

  lemma {:induction false} WordOf(w: string, ls: seq<Lexeme>)
    requires |ls| > |w| && ls[|w|] == Plain(' ')
    requires forall i :: 0 <= i < |w| ==> ls[i] == Plain(w[i]) && IsAlphanumeric(w[i])
    ensures Word(ls) == w
  {
    if w != "" {
      WordOf(w[1..], ls[1..]);
      assert w == [w[0]] + w[1..];
    }
  }

  /** `ATTACH` and a space. */
  ghost predicate StartsAttach(ls: seq<Lexeme>) {
    |ls| >= 7 && ls[6] == Plain(' ') && forall i :: 0 <= i < 6 ==> ls[i] == Plain("ATTACH"[i])
  }

  lemma {:induction false} PrintedHead(path: string, name: string, options: string)
    ensures StartsAttach(Lex(Print(path, name, options)))
  {
    var tail := Spaced(PrintedWords(path)[1..], QuoteIdentifier(name) + Suffix(options));
    var rest := " " + tail;
    assert Print(path, name, options) == "ATTACH" + rest;
    PlainWord("ATTACH", rest);
    assert First(rest) == Plain(' ');
    LexPlain(' ', tail);
    hide Lex, Print, Spaced;
    assert Lex("ATTACH" + rest)[6..][0] == Plain(' ');
  }

  lemma {:induction false} AttachKeyword(sql: string)
    requires StartsAttach(Lex(sql))
    ensures Keyword(sql) == Some("ATTACH")
  {
    var ls := Lex(sql);
    hide Lex;
    assert !Blank(ls[0]);
    WordOf("ATTACH", ls);
    assert Upper("ATTACH") == "ATTACH";
  }

  lemma {:induction false} PrintedKeyword(path: string, name: string, options: string)
    ensures Keyword(Print(path, name, options)) == Some("ATTACH")
  {
    PrintedHead(path, name, options);
    hide Print, Keyword, StartsAttach;
    AttachKeyword(Print(path, name, options));
  }

  /** A text that starts so has a first piece that starts so, however the rest is cut. */
  lemma {:induction false} FirstPieceAttaches(sql: string)
    requires StartsAttach(Lex(sql))
    ensures Split(sql) != [] && Keyword(Split(sql)[0]) == Some("ATTACH")
  {
    var ls := Lex(sql);
    PiecesStandalone(sql);
    hide Lex, Keyword, Canonical;
    FirstPiece([], ls, 7);
    hide CutFrom;
    var p := Cut(ls)[0];
    assert p in Cut(ls) && [] + ls[..7] == ls[..7] && ls[..7] <= p;
    assert forall i :: 0 <= i < 7 ==> p[i] == ls[..7][i] == ls[i];
    assert Split(sql)[0] == Render(p) && Lex(Render(p)) == p;
    hide Split, Cut, Render;
    AttachKeyword(Split(sql)[0]);
  }

  /** User SQL can never be a normalised ATTACH: admission refuses it for every session,
      whatever the configuration it came from. */
  lemma {:induction false} NormalizedIsRefused(config: string, name: string, readOnly: bool, writer: bool)
    requires Normalize(config, name, readOnly).Some?
    ensures Admission.ValidateUserSql(Normalize(config, name, readOnly).value, writer)
         == Some(Admission.AttachNotPermitted)
  {
    var p := ParseAttach(SingleStatement(config).value).value;
    PrintedHead(p.path, name, FinalOptions(p.options, readOnly));
    FirstPieceAttaches(Print(p.path, name, FinalOptions(p.options, readOnly)));
    hide Keyword, Split, Print, StartsAttach;
  }
}
