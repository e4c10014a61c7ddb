/**
 The index-driven scanners, each proved to compute its specification over lexemes.

 Each loop walks an index over the text and appends what it passes. Its invariant says that
 the lexemes of the whole text are those already done followed by the lexemes of the rest, and
 that what was built so far is what the specification makes of those done. The small methods
 that pass over one quoted string or one comment are shared by the loops, as the length of
 such a lexeme is a function of the rest of the text alone, and each loop advances in every
 turn.
 */
module Scanners {
  import opened Ascii
  import opened Sequences
  import opened Lexemes
  import opened Statements
  import opened Wrappers

  // --- One step of each length function, at an index ---

  lemma {:induction false} QuoteStep(s: string, i: nat, q: char)
    requires i < |s|
    ensures i + QuoteLength(s[i..], q) ==
            if s[i] != q then i + 1 + QuoteLength(s[i + 1..], q)
            else if i + 1 < |s| && s[i + 1] == q then i + 2 + QuoteLength(s[i + 2..], q)
            else i + 1
  {
    assert s[i..][1..] == s[i + 1..];
    if i + 1 < |s| {
      assert s[i..][2..] == s[i + 2..];
    }
  }

  lemma {:induction false} LineStep(s: string, i: nat)
    requires i < |s|
    ensures i + LineLength(s[i..]) == if s[i] == '\n' then i else i + 1 + LineLength(s[i + 1..])
  {
    assert s[i..][1..] == s[i + 1..];
  }

  lemma {:induction false} BlockStep(s: string, i: nat)
    requires i < |s|
    ensures i + BlockLength(s[i..]) ==
            if s[i] == '*' && i + 1 < |s| && s[i + 1] == '/' then i + 2
            else i + 1 + BlockLength(s[i + 1..])
  {
    assert s[i..][1..] == s[i + 1..];
  }

  // --- The lexeme at an index, by what the scanner sees there ---

  lemma {:induction false} LexAt(s: string, i: nat, e: nat, l: Lexeme)
    requires i < e <= |s| && First(s[i..]) == l && e == i + |l.Text()|
    ensures Lex(s[i..]) == [l] + Lex(s[e..])
  {
    assert s[i..][e - i..] == s[e..];
  }

  lemma {:induction false} SliceFacts(s: string, i: nat)
    requires i < |s|
    ensures s[i..][0] == s[i] && s[i..][1..] == s[i + 1..]
    ensures i + 1 < |s| ==> s[i..][1] == s[i + 1] && s[i..][2..] == s[i + 2..]
    ensures forall e :: i <= e <= |s| ==> s[i..][..e - i] == s[i..e]
  {
  }

  lemma {:induction false} QuotedAt(s: string, i: nat)
    requires i < |s| && IsQuote(s[i])
    ensures var e := i + 1 + QuoteLength(s[i + 1..], s[i]);
            Lex(s[i..]) == [Quoted(s[i..e])] + Lex(s[e..])
  {
    hide Lex, QuoteLength, LineLength, BlockLength;
    SliceFacts(s, i);
    var e := i + 1 + QuoteLength(s[i + 1..], s[i]);
    LexAt(s, i, e, Quoted(s[i..e]));
  }

  predicate LineCommentAt(s: string, i: nat) {
    i + 1 < |s| && s[i] == '-' && s[i + 1] == '-'
  }

  lemma {:induction false} LineAt(s: string, i: nat)
    requires LineCommentAt(s, i)
    ensures var e := i + 2 + LineLength(s[i + 2..]);
            Lex(s[i..]) == [Comment(s[i..e])] + Lex(s[e..])
  {
    hide Lex, QuoteLength, LineLength, BlockLength;
    SliceFacts(s, i);
    var e := i + 2 + LineLength(s[i + 2..]);
    LexAt(s, i, e, Comment(s[i..e]));
  }

  predicate BlockCommentAt(s: string, i: nat) {
    i + 1 < |s| && s[i] == '/' && s[i + 1] == '*'
  }

  lemma {:induction false} BlockAt(s: string, i: nat)
    requires BlockCommentAt(s, i)
    ensures var e := i + 2 + BlockLength(s[i + 2..]);
            Lex(s[i..]) == [Comment(s[i..e])] + Lex(s[e..])
  {
    hide Lex, QuoteLength, LineLength, BlockLength;
    SliceFacts(s, i);
    var e := i + 2 + BlockLength(s[i + 2..]);
    LexAt(s, i, e, Comment(s[i..e]));
  }

  lemma {:induction false} CharAt(s: string, i: nat)
    requires i < |s| && !IsQuote(s[i]) && !LineCommentAt(s, i) && !BlockCommentAt(s, i)
    ensures Lex(s[i..]) == [if s[i] == ';' then Semi else Plain(s[i])] + Lex(s[i + 1..])
  {
    hide Lex, QuoteLength, LineLength, BlockLength;
    SliceFacts(s, i);
    LexAt(s, i, i + 1, if s[i] == ';' then Semi else Plain(s[i]));
  }

  lemma {:induction false} LexAtEnd(s: string)
    ensures Lex(s[|s|..]) == []
  {
    assert s[|s|..] == "";
  }

  // --- The loops that several scanners share ---

  /** Copy the quoted string that starts at `start`; a doubled quote does not close it. */
  method TakeQuoted(sql: string, start: nat, text: string) returns (i: nat, out: string)
    requires start < |sql| && IsQuote(sql[start])
    ensures i == start + 1 + QuoteLength(sql[start + 1..], sql[start])
    ensures out == text + sql[start..i]
  {
    var quote, n := sql[start], |sql|;
    out := text + [quote];
    i := start + 1;
    ghost var end := start + 1 + QuoteLength(sql[start + 1..], quote);
    while i < n
      invariant start < i <= end <= n
      invariant i + QuoteLength(sql[i..], quote) == end
      invariant out == text + sql[start..i]
    {
      QuoteStep(sql, i, quote);
      SliceExtend(text, sql, start, i);
      var c := sql[i];
      out := out + [c];
      i := i + 1;
      if c == quote {
        if i < n && sql[i] == quote {
          SliceExtend(text, sql, start, i);
          out := out + [quote];
          i := i + 1;
          continue;
        }
        break;
      }
    }
  }

  /** The index after the line comment at `start` and its newline, if it has one. */
  function LineCommentEnd(sql: string, start: nat): nat
    requires LineCommentAt(sql, start)
  {
    var e := start + 2 + LineLength(sql[start + 2..]);
    if e < |sql| then e + 1 else e
  }

  /** A line comment stops at a newline or at the end of the text. */
  lemma {:induction false} LineStopsAtNewline(s: string)
    ensures LineLength(s) < |s| ==> s[LineLength(s)] == '\n'
  {
    if s != "" && s[0] != '\n' {
      LineStopsAtNewline(s[1..]);
    }
  }

  /** Copy the line comment that starts at `start`, with its newline if it has one. */
  method TakeLineComment(sql: string, start: nat, text: string) returns (i: nat, out: string)
    requires LineCommentAt(sql, start)
    ensures i == LineCommentEnd(sql, start)
    ensures out == text + sql[start..i]
  {
    var n := |sql|;
    out := text + "--";
    i := start + 2;
    ghost var end := start + 2 + LineLength(sql[start + 2..]);
    while i < n
      invariant start + 2 <= i <= end <= n
      invariant i + LineLength(sql[i..]) == end
      invariant out == text + sql[start..i]
    {
      LineStep(sql, i);
      var c := sql[i];
      out := out + [c];
      i := i + 1;
      if c == '\n' {
        break;
      }
    }
  }

  /** Copy the block comment that starts at `start`. */
  method TakeBlockComment(sql: string, start: nat, text: string) returns (i: nat, out: string)
    requires BlockCommentAt(sql, start)
    ensures i == start + 2 + BlockLength(sql[start + 2..])
    ensures out == text + sql[start..i]
  {
    hide BlockLength;
    var n := |sql|;
    out := text + "/*";
    i := start + 2;
    ghost var end := start + 2 + BlockLength(sql[start + 2..]);
    while i < n
      invariant start + 2 <= i <= end <= n
      invariant i + BlockLength(sql[i..]) == end
      invariant out == text + sql[start..i]
    {
      BlockStep(sql, i);
      SliceExtend(text, sql, start, i);
      var c := sql[i];
      out := out + [c];
      i := i + 1;
      if c == '*' && i < n && sql[i] == '/' {
        SliceExtend(text, sql, start, i);
        out := out + ['/'];
        i := i + 1;
        break;
      }
    }
  }

  /** The index of the newline that ends the line comment at `start`, or the end of the text. */
  method SkipLineComment(sql: string, start: nat) returns (i: nat)
    requires LineCommentAt(sql, start)
    ensures i == start + 2 + LineLength(sql[start + 2..])
  {
    i := start + 2;
    while i < |sql| && sql[i] != '\n'
      invariant start + 2 <= i <= |sql|
      invariant i + LineLength(sql[i..]) == start + 2 + LineLength(sql[start + 2..])
    {
      LineStep(sql, i);
      i := i + 1;
    }
    if i < |sql| {
      LineStep(sql, i);
    }
  }

  /** The index after the block comment at `start`. */
  method SkipBlockComment(sql: string, start: nat) returns (i: nat)
    requires BlockCommentAt(sql, start)
    ensures i == start + 2 + BlockLength(sql[start + 2..])
  {
    i := start + 2;
    ghost var end := start + 2 + BlockLength(sql[start + 2..]);
    while i < |sql|
      invariant start + 2 <= i <= end <= |sql|
      invariant i + BlockLength(sql[i..]) == end
    {
      BlockStep(sql, i);
      if sql[i] == '*' && i + 1 < |sql| && sql[i + 1] == '/' {
        i := i + 2;
        break;
      }
      i := i + 1;
    }
  }

  // --- The splitter ---

  /** The pieces still to come when `current` has been read and the lexemes have not. */
  function SplitFrom(current: string, ls: seq<Lexeme>): seq<string>
    decreases |ls|
  {
    if ls == [] then if current == "" then [] else [current]
    else if ls[0].Semi? then [current] + SplitFrom("", ls[1..])
    else SplitFrom(current + ls[0].Text(), ls[1..])
  }

  lemma {:induction false} RenderNonEmpty(ls: seq<Lexeme>)
    requires ls != [] && forall l :: l in ls ==> l.Text() != ""
    ensures Render(ls) != ""
  {
  }

  lemma {:induction false} SplitFromCut(current: seq<Lexeme>, ls: seq<Lexeme>)
    requires forall l :: l in current ==> l.Text() != ""
    requires forall l :: l in ls ==> l.Text() != ""
    ensures SplitFrom(Render(current), ls) == RenderAll(CutFrom(current, ls))
    decreases |ls|
  {
    if ls == [] {
      if current != [] {
        RenderNonEmpty(current);
      }
    } else if ls[0].Semi? {
      SplitFromCut([], ls[1..]);
      assert RenderAll([current] + CutFrom([], ls[1..])) == [Render(current)] + RenderAll(CutFrom([], ls[1..]));
    } else {
      RenderConcat(current, [ls[0]]);
      assert Render([ls[0]]) == ls[0].Text();
      SplitFromCut(current + [ls[0]], ls[1..]);
    }
  }

  lemma {:induction false} LexTextNonEmpty(s: string)
    ensures forall l :: l in Lex(s) ==> l.Text() != ""
  {
    if s != "" {
      LexTextNonEmpty(s[|First(s).Text()|..]);
    }
  }

  lemma {:induction false} SplitIsSplitFrom(sql: string)
    ensures SplitFrom("", Lex(sql)) == Split(sql)
  {
    LexTextNonEmpty(sql);
    SplitFromCut([], Lex(sql));
  }

  lemma {:induction false} SplitSkip(current: string, l: Lexeme, ls: seq<Lexeme>)
    requires !l.Semi?
    ensures SplitFrom(current, [l] + ls) == SplitFrom(current + l.Text(), ls)
  {
    assert ([l] + ls)[1..] == ls;
  }

  lemma {:induction false} SplitAtSemi(current: string, ls: seq<Lexeme>)
    ensures SplitFrom(current, [Semi] + ls) == [current] + SplitFrom("", ls)
  {
    assert ([Semi] + ls)[1..] == ls;
  }

  /** `segments` and `current` hold everything before index `i`. */
  ghost predicate Splitting(sql: string, i: nat, segments: seq<string>, current: string) {
    i <= |sql| && segments + SplitFrom(current, Lex(sql[i..])) == Split(sql)
  }

  lemma {:induction false} SplittingStart(sql: string)
    ensures Splitting(sql, 0, [], "")
  {
    SplitIsSplitFrom(sql);
    assert sql[0..] == sql;
  }

  lemma {:induction false} SplittingEnd(sql: string, segments: seq<string>, current: string)
    requires Splitting(sql, |sql|, segments, current)
    ensures Split(sql) == segments + if current == "" then [] else [current]
  {
    assert sql[|sql|..] == "";
  }

  lemma {:induction false} SplittingStep(sql: string, i: nat, e: nat, segments: seq<string>, current: string, l: Lexeme)
    requires Splitting(sql, i, segments, current) && e <= |sql|
    requires Lex(sql[i..]) == [l] + Lex(sql[e..]) && !l.Semi?
    ensures Splitting(sql, e, segments, current + l.Text())
  {
    SplitSkip(current, l, Lex(sql[e..]));
  }

  lemma {:induction false} SplittingQuote(sql: string, i: nat, e: nat, segments: seq<string>, current: string)
    requires Splitting(sql, i, segments, current) && i < |sql| && IsQuote(sql[i])
    requires e == i + 1 + QuoteLength(sql[i + 1..], sql[i])
    ensures Splitting(sql, e, segments, current + sql[i..e])
  {
    hide Lex, First, QuoteLength, LineLength, BlockLength;
    QuotedAt(sql, i);
    SplittingStep(sql, i, e, segments, current, Quoted(sql[i..e]));
  }

  lemma {:induction false} SplittingBlock(sql: string, i: nat, e: nat, segments: seq<string>, current: string)
    requires Splitting(sql, i, segments, current)
    requires BlockCommentAt(sql, i) && e == i + 2 + BlockLength(sql[i + 2..])
    ensures Splitting(sql, e, segments, current + sql[i..e])
  {
    hide Lex, First, QuoteLength, LineLength, BlockLength;
    BlockAt(sql, i);
    SplittingStep(sql, i, e, segments, current, Comment(sql[i..e]));
  }

  lemma {:induction false} SplittingChar(sql: string, i: nat, segments: seq<string>, current: string)
    requires Splitting(sql, i, segments, current)
    requires i < |sql| && !IsQuote(sql[i]) && !LineCommentAt(sql, i) && !BlockCommentAt(sql, i)
    requires sql[i] != ';'
    ensures Splitting(sql, i + 1, segments, current + [sql[i]])
  {
    hide Lex, First, QuoteLength, LineLength, BlockLength;
    CharAt(sql, i);
    SplittingStep(sql, i, i + 1, segments, current, Plain(sql[i]));
  }

  lemma {:induction false} SplittingSemi(sql: string, i: nat, segments: seq<string>, current: string)
    requires Splitting(sql, i, segments, current) && i < |sql| && sql[i] == ';'
    ensures Splitting(sql, i + 1, segments + [current], "")
  {
    CharAt(sql, i);
    SplitAtSemi(current, Lex(sql[i + 1..]));
    ConcatAssoc(segments, [current], SplitFrom("", Lex(sql[i + 1..])));
  }

  lemma {:induction false} SplittingLineComment(sql: string, i: nat, e: nat, segments: seq<string>, current: string)
    requires Splitting(sql, i, segments, current)
    requires LineCommentAt(sql, i) && e == i + 2 + LineLength(sql[i + 2..])
    ensures Splitting(sql, e, segments, current + sql[i..e])
    ensures e < |sql| ==> sql[e] == '\n'
  {
    hide Lex, First, QuoteLength, LineLength, BlockLength;
    LineAt(sql, i);
    SplittingStep(sql, i, e, segments, current, Comment(sql[i..e]));
    LineStopsAtNewline(sql[i + 2..]);
  }

  lemma {:induction false} SplittingNewline(sql: string, i: nat, e: nat, segments: seq<string>, current: string)
    requires i <= e < |sql| && sql[e] == '\n'
    requires Splitting(sql, e, segments, current + sql[i..e])
    ensures Splitting(sql, e + 1, segments, current + sql[i..e + 1])
  {
    hide Lex, First, QuoteLength, LineLength, BlockLength;
    SplittingChar(sql, e, segments, current + sql[i..e]);
    SliceExtend(current, sql, i, e);
  }

  /** A line comment read with its newline is the comment, then the newline. */
  lemma {:induction false} SplittingLine(sql: string, i: nat, segments: seq<string>, current: string)
    requires Splitting(sql, i, segments, current) && LineCommentAt(sql, i)
    ensures Splitting(sql, LineCommentEnd(sql, i), segments, current + sql[i..LineCommentEnd(sql, i)])
  {
    hide Lex, First, QuoteLength, LineLength, BlockLength;
    var e := i + 2 + LineLength(sql[i + 2..]);
    SplittingLineComment(sql, i, e, segments, current);
    if e < |sql| {
      SplittingNewline(sql, i, e, segments, current);
    }
  }

  /** Split SQL into top-level statements; semicolons in quotes and comments do not split. */
  method SplitTopLevelStatements(sql: string) returns (segments: seq<string>)
    ensures segments == Split(sql)
  {
    hide Lex, First, QuoteLength, LineLength, BlockLength;
    segments := [];
    var current := "";
    var i, n := 0, |sql|;
    SplittingStart(sql);
    while i < n
      invariant Splitting(sql, i, segments, current)
      decreases n - i
    {
      var ch := sql[i];
      ghost var start, before := i, current;
      if IsQuote(ch) {
        i, current := TakeQuoted(sql, i, current);
        SplittingQuote(sql, start, i, segments, before);
      } else if ch == '-' && i + 1 < n && sql[i + 1] == '-' {
        i, current := TakeLineComment(sql, i, current);
        SplittingLine(sql, start, segments, before);
      } else if ch == '/' && i + 1 < n && sql[i + 1] == '*' {
        i, current := TakeBlockComment(sql, i, current);
        SplittingBlock(sql, start, i, segments, before);
      } else if ch == ';' {
        SplittingSemi(sql, i, segments, current);
        segments := segments + [current];
        current := "";
        i := i + 1;
      } else {
        SplittingChar(sql, i, segments, current);
        current := current + [ch];
        i := i + 1;
      }
    }
    SplittingEnd(sql, segments, current);
    if current != "" {
      segments := segments + [current];
    }
  }

  // --- The comment stripper ---

  /** `out` is the stripped text of everything before index `i`. */
  ghost predicate Stripped(sql: string, i: nat, out: string) {
    i <= |sql| && out + Render(StripLexemes(Lex(sql[i..]))) == Strip(sql)
  }

  lemma {:induction false} StrippedStart(sql: string)
    ensures Stripped(sql, 0, "")
  {
    assert sql[0..] == sql;
  }

  lemma {:induction false} StrippedEnd(sql: string, out: string)
    requires Stripped(sql, |sql|, out)
    ensures out == Strip(sql)
  {
    assert sql[|sql|..] == "";
  }

  lemma {:induction false} StrippedStep(sql: string, i: nat, e: nat, out: string, l: Lexeme)
    requires Stripped(sql, i, out) && e <= |sql|
    requires Lex(sql[i..]) == [l] + Lex(sql[e..])
    ensures Stripped(sql, e, out + StripLexeme(l).Text())
  {
    var rest := Lex(sql[e..]);
    StripCons([l] + rest);
    assert ([l] + rest)[1..] == rest;
    ConcatAssoc(out, StripLexeme(l).Text(), Render(StripLexemes(rest)));
  }

  lemma {:induction false} StrippedQuote(sql: string, i: nat, e: nat, out: string)
    requires Stripped(sql, i, out) && i < |sql| && IsQuote(sql[i])
    requires e == i + 1 + QuoteLength(sql[i + 1..], sql[i])
    ensures Stripped(sql, e, out + sql[i..e])
  {
    hide Lex, First, QuoteLength, LineLength, BlockLength;
    QuotedAt(sql, i);
    StrippedStep(sql, i, e, out, Quoted(sql[i..e]));
  }

  lemma {:induction false} StrippedComment(sql: string, i: nat, e: nat, out: string)
    requires Stripped(sql, i, out)
    requires (LineCommentAt(sql, i) && e == i + 2 + LineLength(sql[i + 2..]))
          || (BlockCommentAt(sql, i) && e == i + 2 + BlockLength(sql[i + 2..]))
    ensures Stripped(sql, e, out + " ")
  {
    hide Lex, First, QuoteLength, LineLength, BlockLength;
    if LineCommentAt(sql, i) {
      LineAt(sql, i);
    } else {
      BlockAt(sql, i);
    }
    StrippedStep(sql, i, e, out, Comment(sql[i..e]));
  }

  lemma {:induction false} StrippedChar(sql: string, i: nat, out: string)
    requires Stripped(sql, i, out)
    requires i < |sql| && !IsQuote(sql[i]) && !LineCommentAt(sql, i) && !BlockCommentAt(sql, i)
    ensures Stripped(sql, i + 1, out + [sql[i]])
  {
    hide Lex, First, QuoteLength, LineLength, BlockLength;
    CharAt(sql, i);
    StrippedStep(sql, i, i + 1, out, if sql[i] == ';' then Semi else Plain(sql[i]));
  }

  /** Replace each comment with one space, preserving quoted strings. */
  method StripComments(sql: string) returns (out: string)
    ensures out == Strip(sql)
  {
    hide Lex, First, QuoteLength, LineLength, BlockLength;
    out := "";
    var i, n := 0, |sql|;
    StrippedStart(sql);
    while i < n
      invariant Stripped(sql, i, out)
      decreases n - i
    {
      var ch := sql[i];
      ghost var start, before := i, out;
      if IsQuote(ch) {
        i, out := TakeQuoted(sql, i, out);
        StrippedQuote(sql, start, i, before);
      } else if ch == '-' && i + 1 < n && sql[i + 1] == '-' {
        i := SkipLineComment(sql, i);
        out := out + " ";
        StrippedComment(sql, start, i, before);
      } else if ch == '/' && i + 1 < n && sql[i + 1] == '*' {
        i := SkipBlockComment(sql, i);
        out := out + " ";
        StrippedComment(sql, start, i, before);
      } else {
        StrippedChar(sql, i, out);
        out := out + [ch];
        i := i + 1;
      }
    }
    StrippedEnd(sql, out);
  }

  // --- The leading keyword ---

  lemma {:induction false} WordOne(l: Lexeme, ls: seq<Lexeme>)
    ensures Word([l] + ls) == if WordLexeme(l) then [l.c] + Word(ls) else ""
  {
    assert ([l] + ls)[1..] == ls;
  }

  /** Everything before index `i` is whitespace and comments. */
  ghost predicate OnlyBlanksBefore(sql: string, i: nat) {
    i <= |sql| && SkipBlanks(Lex(sql[i..])) == SkipBlanks(Lex(sql))
  }

  lemma {:induction false} BlankStart(sql: string)
    ensures OnlyBlanksBefore(sql, 0)
  {
    assert sql[0..] == sql;
  }

  lemma {:induction false} BlankStep(sql: string, i: nat, e: nat, l: Lexeme)
    requires OnlyBlanksBefore(sql, i) && e <= |sql|
    requires Lex(sql[i..]) == [l] + Lex(sql[e..]) && Blank(l)
    ensures OnlyBlanksBefore(sql, e)
  {
    assert ([l] + Lex(sql[e..]))[1..] == Lex(sql[e..]);
  }

  lemma {:induction false} BlankChar(sql: string, i: nat)
    requires OnlyBlanksBefore(sql, i) && i < |sql| && IsWhitespace(sql[i])
    ensures OnlyBlanksBefore(sql, i + 1)
  {
    hide Lex, First, QuoteLength, LineLength, BlockLength;
    CharAt(sql, i);
    BlankStep(sql, i, i + 1, Plain(sql[i]));
  }

  lemma {:induction false} BlankComment(sql: string, i: nat, e: nat)
    requires OnlyBlanksBefore(sql, i)
    requires (LineCommentAt(sql, i) && e == i + 2 + LineLength(sql[i + 2..]))
          || (BlockCommentAt(sql, i) && e == i + 2 + BlockLength(sql[i + 2..]))
    ensures OnlyBlanksBefore(sql, e)
  {
    hide Lex, First, QuoteLength, LineLength, BlockLength;
    if LineCommentAt(sql, i) {
      LineAt(sql, i);
    } else {
      BlockAt(sql, i);
    }
    BlankStep(sql, i, e, Comment(sql[i..e]));
  }

  lemma {:induction false} BlankEnd(sql: string, i: nat)
    requires OnlyBlanksBefore(sql, i)
    requires i < |sql| ==> !IsWhitespace(sql[i]) && !LineCommentAt(sql, i) && !BlockCommentAt(sql, i)
    ensures SkipBlanks(Lex(sql)) == Lex(sql[i..])
  {
    hide Lex, First, QuoteLength, LineLength, BlockLength;
    if i == |sql| {
      LexAtEnd(sql);
    } else if IsQuote(sql[i]) {
      QuotedAt(sql, i);
    } else {
      CharAt(sql, i);
    }
  }

  /** The index of the first character that is neither whitespace nor in a comment. */
  method SkipLeading(statement: string) returns (i: nat)
    ensures i <= |statement|
    ensures SkipBlanks(Lex(statement)) == Lex(statement[i..])
    ensures i < |statement| ==> !LineCommentAt(statement, i) && !BlockCommentAt(statement, i)
  {
    hide Lex, First, QuoteLength, LineLength, BlockLength;
    i := 0;
    var n := |statement|;
    BlankStart(statement);
    while true
      invariant OnlyBlanksBefore(statement, i)
      decreases n - i
    {
      while i < n && IsWhitespace(statement[i])
        invariant OnlyBlanksBefore(statement, i)
      {
        BlankChar(statement, i);
        i := i + 1;
      }
      ghost var start := i;
      if i + 1 < n && statement[i] == '-' && statement[i + 1] == '-' {
        i := SkipLineComment(statement, i);
        BlankComment(statement, start, i);
      } else if i + 1 < n && statement[i] == '/' && statement[i + 1] == '*' {
        i := SkipBlockComment(statement, i);
        BlankComment(statement, start, i);
      } else {
        BlankEnd(statement, i);
        return;
      }
    }
  }

  /** The uppercased first word after leading whitespace and comments. */
  method LeadingKeyword(statement: string) returns (keyword: Option<string>)
    ensures keyword == Keyword(statement)
  {
    hide Lex, First, QuoteLength, LineLength, BlockLength, Upper;
    var n := |statement|;
    var i := SkipLeading(statement);
    if i >= n {
      LexAtEnd(statement);
      return None;
    }
    hide Word;
    var start := i;
    ghost var word := Word(Lex(statement[start..]));
    while i < n && (IsAlphanumeric(statement[i]) || statement[i] == '_')
      invariant start <= i <= n
      invariant WordSoFar(statement, start, i, word)
    {
      WordTurn(statement, start, i, word);
      i := i + 1;
    }
    NoWordAt(statement, i);
    assert word == statement[start..i];
    if i == start {
      return None;
    }
    return Some(Upper(statement[start..i]));
  }

  ghost predicate WordSoFar(s: string, start: nat, i: nat, word: string) {
    start <= i <= |s| && word == s[start..i] + Word(Lex(s[i..]))
  }

  lemma {:induction false} WordTurn(s: string, start: nat, i: nat, word: string)
    requires WordSoFar(s, start, i, word) && i < |s| && (IsAlphanumeric(s[i]) || s[i] == '_')
    ensures WordSoFar(s, start, i + 1, word)
  {
    hide Lex, First, QuoteLength, LineLength, BlockLength, Word;
    CharAt(s, i);
    WordOne(Plain(s[i]), Lex(s[i + 1..]));
    SliceExtend([], s, start, i);
    ConcatAssoc(s[start..i], [s[i]], Word(Lex(s[i + 1..])));
  }

  lemma {:induction false} NoWordAt(s: string, i: nat)
    requires i <= |s|
    requires i < |s| ==> !IsAlphanumeric(s[i]) && s[i] != '_'
    ensures Word(Lex(s[i..])) == ""
  {
    if i < |s| {
      assert First(s[i..]).Plain? ==> First(s[i..]).c == s[i];
    }
  }
}
