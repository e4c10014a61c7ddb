/** The ATTACH parser and the normaliser that prints what it parsed. */
module Attach {
  import opened Ascii
  import opened Sequences
  import opened Statements
  import opened Wrappers
  import opened Tokens
  import opened Options

  datatype ParsedAttach = ParsedAttach(path: string, options: string)

  predicate TokenEq(ts: seq<string>, i: nat, keyword: string) {
    i < |ts| && EqIgnoreCase(ts[i], keyword)
  }

  /** The index of the path token, after ATTACH and its optional keywords. */
  function PathIndex(ts: seq<string>): nat {
    var i := 1;
    var i := if TokenEq(ts, i, "OR") && TokenEq(ts, i + 1, "REPLACE") then i + 2 else i;
    var i := if TokenEq(ts, i, "DATABASE") then i + 1 else i;
    if TokenEq(ts, i, "IF") && TokenEq(ts, i + 1, "NOT") && TokenEq(ts, i + 2, "EXISTS") then i + 3 else i
  }

  /** The index of the option block, after the path and the optional `AS <alias>`. */
  function OptionsIndex(ts: seq<string>, path: nat): nat {
    if !TokenEq(ts, path + 1, "AS") then path + 1
    else if path + 2 < |ts| && ts[path + 2] != "(" then path + 3
    else path + 2
  }

  function ParseTokens(ts: seq<string>): Option<ParsedAttach> {
    if !TokenEq(ts, 0, "ATTACH") then None else
    var p := PathIndex(ts);
    if p >= |ts| || ts[p] == "(" then None else
    var o := OptionsIndex(ts, p);
    if o >= |ts| then Some(ParsedAttach(ts[p], ""))
    else if ts[o] == "(" then Some(ParsedAttach(ts[p], Rebuild(ts[o..])))
    else None
  }

  function ParseAttach(statement: string): Option<ParsedAttach> {
    ParseTokens(Tokenize(statement))
  }

  // --- Words that may stand before the path, and the alias ---

  /** Tokens that begin none of the optional phrases. */
  predicate NoPhrase(ts: seq<string>) {
    && !(TokenEq(ts, 0, "OR") && TokenEq(ts, 1, "REPLACE")) && !TokenEq(ts, 0, "DATABASE")
    && !(TokenEq(ts, 0, "IF") && TokenEq(ts, 1, "NOT") && TokenEq(ts, 2, "EXISTS"))
  }

  function Phrases(replace: bool, database: bool, notExists: bool): seq<string> {
    (if replace then ["OR", "REPLACE"] else [])
    + ((if database then ["DATABASE"] else []) + (if notExists then ["IF", "NOT", "EXISTS"] else []))
  }

  /** OR REPLACE, DATABASE and IF NOT EXISTS, in that order, change nothing. */
  lemma {:induction false} PhrasesAreSkipped(replace: bool, database: bool, notExists: bool, rest: seq<string>)
    requires NoPhrase(rest)
    ensures ParseTokens(["ATTACH"] + (Phrases(replace, database, notExists) + rest)) == ParseTokens(["ATTACH"] + rest)
  {
    hide *;
    PhrasesEnd(replace, database, notExists, rest);
    PhrasesEnd(false, false, false, rest);
    NoPhrases();
    assert [] + rest == rest;
    SameBehind(Phrases(replace, database, notExists), rest);
  }

  lemma {:induction false} SameBehind(pre: seq<string>, rest: seq<string>)
    requires PathIndex(["ATTACH"] + (pre + rest)) == 1 + |pre| && PathIndex(["ATTACH"] + rest) == 1
    ensures ParseTokens(["ATTACH"] + (pre + rest)) == ParseTokens(["ATTACH"] + rest)
  {
    hide *;
    var with, without := ["ATTACH"] + (pre + rest), ["ATTACH"] + rest;
    assert with[1 + |pre|..] == rest == without[1..];
    SameFrom(with, without, 1 + |pre|, 1);
  }

  lemma {:induction false} NoPhrases()
    ensures Phrases(false, false, false) == []
  {
  }

  lemma {:induction false} PhrasesEnd(replace: bool, database: bool, notExists: bool, rest: seq<string>)
    requires NoPhrase(rest)
    ensures var pre := Phrases(replace, database, notExists);
            PathIndex(["ATTACH"] + (pre + rest)) == 1 + |pre|
  {
    var pre := Phrases(replace, database, notExists);
    var ts := ["ATTACH"] + (pre + rest);
    PhraseWords();
    hide EqIgnoreCase;
    assert forall k :: 0 <= k < |rest| ==> ts[1 + |pre| + k] == rest[k];
    var last := if notExists then ["IF", "NOT", "EXISTS"] else [];
    var middle := if database then ["DATABASE"] else [];
    var first := if replace then ["OR", "REPLACE"] else [];
    hide Phrases;
    assert pre == first + (middle + last);
    var i := 1 + |first|;
    var j := i + |middle|;
    assert last != [] ==> ts[j] == "IF" && ts[j + 1] == "NOT" && ts[j + 2] == "EXISTS";
    assert middle != [] ==> ts[i] == "DATABASE";
    assert first != [] ==> ts[1] == "OR" && ts[2] == "REPLACE";
    var a := if TokenEq(ts, 1, "OR") && TokenEq(ts, 2, "REPLACE") then 3 else 1;
    assert a == i;
    var b := if TokenEq(ts, a, "DATABASE") then a + 1 else a;
    assert b == j;
  }

  lemma {:induction false} PhraseWords()
    ensures EqIgnoreCase("OR", "OR") && EqIgnoreCase("REPLACE", "REPLACE") && EqIgnoreCase("DATABASE", "DATABASE")
    ensures EqIgnoreCase("IF", "IF") && EqIgnoreCase("NOT", "NOT") && EqIgnoreCase("EXISTS", "EXISTS")
    ensures !EqIgnoreCase("DATABASE", "OR") && !EqIgnoreCase("IF", "OR") && !EqIgnoreCase("IF", "DATABASE")
  {
    assert |Lower("DATABASE")| == 8 && |Lower("OR")| == 2 && |Lower("IF")| == 2;
    assert Lower("IF")[0] == 'i' && Lower("OR")[0] == 'o';
  }

  lemma {:induction false} SameOptions(a: seq<string>, b: seq<string>, p: nat, q: nat)
    requires p < |a| && q < |b| && a[p..] == b[q..]
    ensures OptionsIndex(a, p) - p == OptionsIndex(b, q) - q && OptionsIndex(a, p) >= p
  {
    hide EqIgnoreCase;
    var rest := a[p..];
    assert |rest| == |a| - p == |b| - q;
    assert p + 1 < |a| ==> a[p + 1] == rest[1] == b[q + 1];
    assert p + 2 < |a| ==> a[p + 2] == rest[2] == b[q + 2];
  }

  /** From the path on the two token lists are the same. */
  lemma {:induction false} SameFrom(a: seq<string>, b: seq<string>, p: nat, q: nat)
    requires a != [] && b != [] && a[0] == b[0] && PathIndex(a) == p && PathIndex(b) == q
    requires p <= |a| && q <= |b| && a[p..] == b[q..]
    ensures ParseTokens(a) == ParseTokens(b)
  {
    hide PathIndex, EqIgnoreCase, Rebuild, OptionsIndex;
    assert |a| - p == |a[p..]| == |b| - q;
    if p < |a| {
      assert a[p] == a[p..][0] == b[q];
      SameOptions(a, b, p, q);
      var o, u := OptionsIndex(a, p), OptionsIndex(b, q);
      if o < |a| {
        assert a[o..] == a[p..][o - p..] && b[u..] == b[q..][u - q..];
        assert a[o] == a[o..][0] && b[u] == b[u..][0];
      }
    }
  }

  /** An alias changes nothing either. */
  lemma {:induction false} AliasIsSkipped(path: string, alias: string, options: seq<string>)
    requires !EqIgnoreCase(path, "DATABASE") && path != "(" && alias != "(" && (options == [] || options[0] == "(")
    ensures ParseTokens(["ATTACH", path, "AS", alias] + options) == ParseTokens(["ATTACH", path] + options)
         == Some(ParsedAttach(path, if options == [] then "" else Rebuild(options)))
  {
    var with, without := ["ATTACH", path, "AS", alias] + options, ["ATTACH", path] + options;
    assert Lower("(")[0] == '(' && Lower("AS")[0] == 'a' && EqIgnoreCase("AS", "AS");
    assert |Lower("AS")| == 2 && |Lower("REPLACE")| == 7 && |Lower("NOT")| == 3 && Lower("REPLACE")[0] == 'r';
    assert Lower("NOT")[0] == 'n';
    hide EqIgnoreCase, Rebuild;
    assert with[1] == path == without[1] && with[2] == "AS" && with[3] == alias;
    assert options != [] ==> without[2] == "(";
    assert PathIndex(with) == 1 && PathIndex(without) == 1;
    assert with[4..] == options && without[2..] == options;
    assert options != [] ==> with[4] == options[0] && without[2] == options[0];
  }

  // --- The normaliser ---

  function NonBlank(pieces: seq<string>): seq<string> {
    if pieces == [] then []
    else (if Trim(pieces[0]) == "" then [] else [pieces[0]]) + NonBlank(pieces[1..])
  }

  /** The only non-blank statement, trimmed. */
  function SingleStatement(config: string): Option<string> {
    var statements := NonBlank(Split(config));
    if |statements| == 1 then Some(Trim(statements[0])) else None
  }

  function Suffix(options: string): string {
    if options == "" then "" else " " + options
  }

  /** The words, each followed by a space, then the rest. */
  function Spaced(words: seq<string>, rest: string): string {
    if words == [] then rest else words[0] + (" " + Spaced(words[1..], rest))
  }

  function PrintedWords(path: string): seq<string> {
    ["ATTACH", "OR", "REPLACE", path, "AS"]
  }

  function Print(path: string, name: string, options: string): string {
    Spaced(PrintedWords(path), QuoteIdentifier(name) + Suffix(options))
  }

  function FinalOptions(options: string, readOnly: bool): string {
    if readOnly then EnforceReadOnly(options) else Trim(options)
  }

  /** `None` is the AttachInvalid error, the only one there is. */
  function Normalize(config: string, name: string, readOnly: bool): Option<string> {
    var statement := SingleStatement(config);
    if statement.None? || Keyword(statement.value) != Some("ATTACH") then None else
    var parsed := ParseAttach(statement.value);
    if parsed.None? then None
    else Some(Print(parsed.value.path, name, FinalOptions(parsed.value.options, readOnly)))
  }

  // --- Reading the printed statement back ---

  predicate BlockText(options: string) {
    options == "" || (Tokenize(options) != [] && Tokenize(options)[0] == "(" && Rebuild(Tokenize(options)) == options)
  }

  lemma {:induction false} PrintedWordsClosed(path: string)
    requires Closed(path)
    ensures forall i :: 0 <= i < 5 ==> Closed(PrintedWords(path)[i])
  {
    BareWord("ATTACH");
    BareWord("OR");
    BareWord("REPLACE");
    BareWord("AS");
  }

  lemma {:induction false} TokenizeAlias(name: string, options: string)
    ensures Tokenize(QuoteIdentifier(name) + Suffix(options)) == [QuoteIdentifier(name)] + Tokenize(options)
  {
    var alias := QuoteIdentifier(name);
    QuoteClosedToken(name, '"');
    if options == "" {
      TokenizeFirst(alias, "");
    } else {
      TokenizeSpaced(alias, options);
    }
  }

  lemma {:induction false} TokenizeWords(words: seq<string>, rest: string)
    requires forall i :: 0 <= i < |words| ==> Closed(words[i])
    ensures Tokenize(Spaced(words, rest)) == words + Tokenize(rest)
  {
    if words != [] {
      TokenizeWords(words[1..], rest);
      TokenizeSpaced(words[0], Spaced(words[1..], rest));
      hide Tokenize, Closed;
      ConsConcat(words, Tokenize(rest));
    }
  }

  lemma {:induction false} TokenizePrint(path: string, name: string, options: string)
    requires Closed(path)
    ensures Tokenize(Print(path, name, options))
         == PrintedWords(path) + ([QuoteIdentifier(name)] + Tokenize(options))
  {
    PrintedWordsClosed(path);
    TokenizeAlias(name, options);
    hide Tokenize, Closed;
    TokenizeWords(PrintedWords(path), QuoteIdentifier(name) + Suffix(options));
  }

  /** The printed statement reads back as the same path and options. */
  ghost predicate ReadsBack(path: string, name: string, options: string) {
    ParseAttach(Print(path, name, options)) == Some(ParsedAttach(path, options))
  }

  lemma {:induction false} QuotedIsNoKeyword(name: string, keyword: string)
    requires keyword != "" && IsAlphanumeric(keyword[0])
    ensures !EqIgnoreCase(QuoteIdentifier(name), keyword)
  {
    assert Lower(QuoteIdentifier(name))[0] == '"';
    assert Lower(keyword)[0] == LowerChar(keyword[0]);
  }

  lemma {:induction false} ParsePrintedTokens(path: string, name: string, opts: seq<string>)
    requires path != "(" && (opts == [] || opts[0] == "(")
    ensures ParseTokens(PrintedWords(path) + ([QuoteIdentifier(name)] + opts))
         == if EqIgnoreCase(path, "DATABASE") then None
            else Some(ParsedAttach(path, if opts == [] then "" else Rebuild(opts)))
  {
    var alias := QuoteIdentifier(name);
    var ts := PrintedWords(path) + ([alias] + opts);
    QuotedIsNoKeyword(name, "AS");
    QuotedIsNoKeyword(name, "NOT");
    assert Lower("AS") == "as" && Lower("IF") == "if" && Lower("NOT") == "not" && Lower("OR") == "or";
    assert ts[3] == path && ts[4] == "AS" && ts[5] == alias && ts[6..] == opts;
    assert alias != "(";
    if EqIgnoreCase(path, "DATABASE") {
      assert PathIndex(ts) == 4;
      assert OptionsIndex(ts, 4) == 5;
    } else {
      assert PathIndex(ts) == 3;
      assert OptionsIndex(ts, 3) == 6;
    }
  }

  // --- Trimmed text and its last token ---

  lemma {:induction false} TrimStartEnds(s: string)
    ensures TrimStart(s) == "" || (!IsWhitespace(TrimStart(s)[0]) && TrimStart(s)[|TrimStart(s)| - 1] == s[|s| - 1])
  {
    if s != "" && IsWhitespace(s[0]) {
      TrimStartEnds(s[1..]);
    }
  }

  lemma {:induction false} TrimEndEnds(s: string)
    ensures TrimEnd(s) <= s
    ensures TrimEnd(s) == "" || !IsWhitespace(TrimEnd(s)[|TrimEnd(s)| - 1])
  {
    if s != "" && IsWhitespace(s[|s| - 1]) {
      TrimEndEnds(s[..|s| - 1]);
    }
  }

  lemma {:induction false} TrimEnds(s: string)
    ensures Trim(s) == "" || (!IsWhitespace(Trim(s)[0]) && !IsWhitespace(Trim(s)[|Trim(s)| - 1]))
  {
    TrimStartEnds(s);
    TrimEndEnds(TrimStart(s));
  }

  function Last(s: string): char
    requires s != ""
  {
    s[|s| - 1]
  }

  lemma {:induction false} LastToken(s: string)
    requires s != "" && !IsWhitespace(Last(s))
    ensures var ts := Tokenize(s); ts != [] && ts[|ts| - 1] != "" && Last(ts[|ts| - 1]) == Last(s)
  {
    if IsWhitespace(s[0]) {
      LastToken(s[1..]);
    } else {
      var n := TokenLength(s);
      FirstToken(s);
      if n < |s| {
        LastToken(s[n..]);
      }
    }
  }

  lemma {:induction false} TailLast(prev: string, ts: seq<string>)
    requires ts != [] && ts[|ts| - 1] != ""
    ensures Tail(prev, ts) != "" && Last(Tail(prev, ts)) == Last(ts[|ts| - 1])
    decreases |ts|
  {
    if |ts| == 1 {
      assert Tail(prev, ts) == Separator(prev, ts[0]) + ts[0];
    } else {
      TailLast(ts[0], ts[1..]);
    }
  }

  /** An option block cut from a trimmed statement needs no trimming. */
  lemma {:induction false} BlockTrimmed(ts: seq<string>)
    requires ts != [] && ts[0] == "(" && ts[|ts| - 1] != "" && !IsWhitespace(Last(ts[|ts| - 1]))
    ensures Trim(Rebuild(ts)) == Rebuild(ts)
  {
    var out := Rebuild(ts);
    if |ts| > 1 {
      var tail := Tail("(", ts[1..]);
      TailLast("(", ts[1..]);
      assert out == "(" + tail && Last(out) == Last(tail);
    }
    hide Trim;
    TrimIdentity(out);
  }

  // --- What parsing a statement yields ---

  lemma {:induction false} ParsedBlock(statement: string)
    requires statement != "" && !IsWhitespace(Last(statement))
    requires ParseAttach(statement).Some?
    ensures var p := ParseAttach(statement).value;
            && Token(p.path) && p.path != "("
            && BlockText(p.options) && Trim(p.options) == p.options
            && (!Closed(p.path) ==> p.options == "")
  {
    var ts := Tokenize(statement);
    TokenizeValid(statement);
    LastToken(statement);
    var i := PathIndex(ts);
    var o := OptionsIndex(ts, i);
    if o < |ts| {
      assert ValidTokens(ts[o..]);
      TokenizeRebuild(ts[o..]);
      assert ts[o..][|ts[o..]| - 1] == ts[|ts| - 1];
      BlockTrimmed(ts[o..]);
    }
  }

  lemma {:induction false} FinalBlock(options: string, readOnly: bool)
    requires BlockText(options) && Trim(options) == options
    ensures BlockText(FinalOptions(options, readOnly))
  {
    if readOnly {
      EnforceTokens(options);
      if Trim(options) == "" {
        RebuildFlag();
      }
    }
  }

  lemma {:induction false} NonBlankIn(pieces: seq<string>)
    ensures forall p :: p in NonBlank(pieces) ==> p in pieces && Trim(p) != ""
  {
    if pieces != [] {
      NonBlankIn(pieces[1..]);
    }
  }

  lemma {:induction false} SingleTrimmed(config: string)
    requires SingleStatement(config).Some?
    ensures var s := SingleStatement(config).value;
            s != "" && !IsWhitespace(s[0]) && !IsWhitespace(Last(s))
  {
    NonBlankIn(Split(config));
    TrimEnds(NonBlank(Split(config))[0]);
  }

  lemma {:induction false} UnclosedFirst(t: string, r: string)
    requires Token(t) && !Closed(t)
    ensures var ts := Tokenize(t + (" " + r)); ts != [] && ts[0] != "" && IsQuote(ts[0][0]) && ts[0] != t
  {
    var s := t + (" " + r);
    ClosedIfFollowed(t, "");
    assert s[0] == t[0];
    FirstToken(s);
    if s[..TokenLength(s)] == t {
      assert s[TokenLength(s)..] == " " + r;
      ClosedIfFollowed(t, " " + r);
    }
  }

  /** An unterminated path swallows what is printed after it. */
  lemma {:induction false} UnclosedPath(path: string, name: string, options: string)
    requires Token(path) && !Closed(path)
    ensures !ReadsBack(path, name, options)
  {
    var r := Spaced(["AS"], QuoteIdentifier(name) + Suffix(options));
    UnclosedFirst(path, r);
    BareWord("AS");
    PrintedWordsClosed("AS");
    SpacedSplit(path, QuoteIdentifier(name) + Suffix(options));
    hide Tokenize, Token, Closed, Spaced;
    var words := ["ATTACH", "OR", "REPLACE"];
    assert forall i :: 0 <= i < 3 ==> words[i] == PrintedWords("AS")[i];
    TokenizeWords(words, path + (" " + r));
    UnclosedTokens(words + Tokenize(path + (" " + r)), path);
  }

  lemma {:induction false} SpacedConcat(a: seq<string>, b: seq<string>, rest: string)
    ensures Spaced(a + b, rest) == Spaced(a, Spaced(b, rest))
  {
    if a == [] {
      assert a + b == b;
    } else {
      assert (a + b)[1..] == a[1..] + b;
      SpacedConcat(a[1..], b, rest);
    }
  }

  lemma {:induction false} SpacedSplit(path: string, rest: string)
    ensures Spaced(PrintedWords(path), rest)
         == Spaced(["ATTACH", "OR", "REPLACE"], path + (" " + Spaced(["AS"], rest)))
  {
    SpacedConcat(["ATTACH", "OR", "REPLACE"], [path, "AS"], rest);
    assert ["ATTACH", "OR", "REPLACE"] + [path, "AS"] == PrintedWords(path);
    assert [path, "AS"][1..] == ["AS"];
  }

  lemma {:induction false} UnclosedTokens(ts: seq<string>, path: string)
    requires |ts| > 3 && ts[0] == "ATTACH" && ts[1] == "OR" && ts[2] == "REPLACE"
    requires ts[3] != path && ts[3] != "" && IsQuote(ts[3][0])
    ensures ParseTokens(ts).Some? ==> ParseTokens(ts).value.path != path
  {
    QuotedStartNoKeyword(ts[3], "DATABASE");
    QuotedStartNoKeyword(ts[3], "IF");
    assert PathIndex(ts) == 3;
  }

  lemma {:induction false} QuotedStartNoKeyword(t: string, keyword: string)
    requires t != "" && IsQuote(t[0]) && keyword != "" && IsAlphanumeric(keyword[0])
    ensures !EqIgnoreCase(t, keyword)
  {
    assert Lower(t)[0] == t[0];
    assert Lower(keyword)[0] == LowerChar(keyword[0]);
  }

  /** ATTACH, a quoted path and an option block. */
  lemma {:induction false} QuotedPathParses(ts: seq<string>)
    requires |ts| >= 3 && ts[0] == "ATTACH" && ts[1] != "" && IsQuote(ts[1][0]) && ts[2] == "("
    ensures ParseTokens(ts) == Some(ParsedAttach(ts[1], Rebuild(ts[2..])))
  {
    QuotedStartNoKeyword(ts[1], "OR");
    QuotedStartNoKeyword(ts[1], "DATABASE");
    QuotedStartNoKeyword(ts[1], "IF");
    assert Lower("(")[0] == '(' && Lower("AS")[0] == 'a';
    hide Rebuild;
    assert PathIndex(ts) == 1 && OptionsIndex(ts, 1) == 2;
  }

  /** The normalised statement parses back to the path and options it was printed from
      exactly when the path is a terminated token other than the word DATABASE. */
  lemma {:induction false} NormalizeReadsBack(config: string, name: string, readOnly: bool)
    requires Normalize(config, name, readOnly).Some?
    ensures var p := ParseAttach(SingleStatement(config).value).value;
            var options := FinalOptions(p.options, readOnly);
            && Normalize(config, name, readOnly).value == Print(p.path, name, options)
            && (ReadsBack(p.path, name, options) <==> Closed(p.path) && !EqIgnoreCase(p.path, "DATABASE"))
  {
    var statement := SingleStatement(config).value;
    SingleTrimmed(config);
    ParsedBlock(statement);
    var p := ParseAttach(statement).value;
    var options := FinalOptions(p.options, readOnly);
    FinalBlock(p.options, readOnly);
    if Closed(p.path) {
      TokenizePrint(p.path, name, options);
      ParsePrintedTokens(p.path, name, Tokenize(options));
    } else {
      UnclosedPath(p.path, name, options);
    }
  }

  /** The alias of the normalised statement is its sixth token and unquotes to the name. */
  lemma {:induction false} AliasUnquotes(path: string, name: string, options: string)
    requires Closed(path)
    ensures var ts := Tokenize(Print(path, name, options));
            |ts| >= 6 && ts[3] == path && Unquote(ts[5]) == name
  {
    TokenizePrint(path, name, options);
    UnquoteQuote(name, '"');
  }
}
