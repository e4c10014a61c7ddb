/**
 The leading keyword and the first token of a statement.

 The keyword scanner works on the raw text: it passes over whitespace and comments and takes
 the letters, digits and underscores that follow. The tokenizer works on comment-free text: it
 passes over whitespace and takes all characters up to a delimiter. A first token that is a
 word of letters only is therefore the leading keyword; the converse fails when something that
 is no delimiter is glued to the keyword.
 */
module Keywords {
  import opened Ascii
  import opened Sequences
  import opened Lexemes
  import opened Statements
  import opened Wrappers
  import opened Tokens

  predicate UpperWord(keyword: string) {
    keyword != "" && forall i :: 0 <= i < |keyword| ==> 'A' <= keyword[i] <= 'Z'
  }

  lemma {:induction false} LettersOf(t: string, keyword: string)
    requires EqIgnoreCase(t, keyword) && UpperWord(keyword)
    ensures |t| == |keyword| && Upper(t) == keyword
    ensures forall i :: 0 <= i < |t| ==> IsAlphanumeric(t[i])
  {
    assert |Lower(t)| == |Lower(keyword)|;
    forall i | 0 <= i < |t|
      ensures IsAlphanumeric(t[i]) && UpperChar(t[i]) == keyword[i]
    {
      assert Lower(t)[i] == Lower(keyword)[i];
    }
  }

  /** Behind a bare token stands nothing or a delimiter. */
  lemma {:induction false} BareStops(s: string)
    ensures BareLength(s) < |s| ==> IsDelimiter(s[BareLength(s)])
  {
    if s != "" && !IsDelimiter(s[0]) {
      BareStops(s[1..]);
    }
  }

  lemma {:induction false} LexLetter(c: char, rest: string)
    requires IsAlphanumeric(c) || IsWhitespace(c)
    ensures Lex([c] + rest) == [Plain(c)] + Lex(rest)
  {
    var s := [c] + rest;
    assert First(s) == Plain(c) && s[1..] == rest;
  }

  lemma {:induction false} NoWordStarts(rest: string)
    requires rest == "" || IsDelimiter(rest[0])
    ensures Word(Lex(rest)) == ""
  {
  }

  lemma {:induction false} WordOfText(w: string, rest: string)
    requires forall i :: 0 <= i < |w| ==> IsAlphanumeric(w[i])
    requires rest == "" || IsDelimiter(rest[0])
    ensures Word(Lex(w + rest)) == w
  {
    if w == "" {
      assert w + rest == rest;
      NoWordStarts(rest);
    } else {
      WordOfText(w[1..], rest);
      LexLetter(w[0], w[1..] + rest);
      ConsConcat(w, rest);
      hide Lex;
      var ls := Lex(w[1..] + rest);
      assert ([Plain(w[0])] + ls)[1..] == ls;
    }
  }

  lemma {:induction false} FirstIsPlain(s: string)
    requires s != "" && IsAlphanumeric(s[0])
    ensures SkipBlanks(Lex(s)) == Lex(s)
  {
    assert First(s) == Plain(s[0]);
  }

  /** Leading whitespace is passed over by both. */
  lemma {:induction false} BlankFirst(s: string)
    requires s != "" && IsWhitespace(s[0])
    ensures Tokenize(s) == Tokenize(s[1..]) && Keyword(s) == Keyword(s[1..])
  {
    assert s == [s[0]] + s[1..];
    LexLetter(s[0], s[1..]);
    hide Lex;
    var ls := Lex(s[1..]);
    assert ([Plain(s[0])] + ls)[1..] == ls;
  }

  /** A first token that is a word of letters is the leading keyword. */
  lemma {:induction false} FirstIsKeyword(s: string, keyword: string)
    requires UpperWord(keyword) && Tokenize(s) != [] && EqIgnoreCase(Tokenize(s)[0], keyword)
    ensures Keyword(s) == Some(keyword)
  {
    if IsWhitespace(s[0]) {
      BlankFirst(s);
      FirstIsKeyword(s[1..], keyword);
    } else {
      var n := TokenLength(s);
      FirstToken(s);
      var t, rest := s[..n], s[n..];
      assert s == t + rest;
      LettersOf(t, keyword);
      hide Tokenize, FitsToken;
      assert t[0] == s[0];
      BareStops(s);
      FirstIsPlain(s);
      WordOfText(t, rest);
      hide EqIgnoreCase, Lex, Upper, TokenLength, BareLength;
    }
  }

  /** So it is of the text before its comments are stripped. */
  lemma {:induction false} FirstStrippedIsKeyword(s: string, keyword: string)
    requires UpperWord(keyword) && Tokenize(Strip(s)) != [] && EqIgnoreCase(Tokenize(Strip(s))[0], keyword)
    ensures Keyword(s) == Some(keyword)
  {
    KeywordStrip(s);
    FirstIsKeyword(Strip(s), keyword);
  }

  // --- What the two scanners find, character by character ---

  /** A letter, a digit or an underscore. */
  predicate KeywordChar(c: char) {
    'a' <= c <= 'z' || 'A' <= c <= 'Z' || '0' <= c <= '9' || c == '_'
  }

  /** Tab, newline, vertical tab, form feed, carriage return or space. */
  predicate BlankChar(c: char) {
    c in {'\t', '\n', 11 as char, 12 as char, '\r', ' '}
  }

  lemma {:induction false} WordRuns(w: string, rest: string)
    requires forall i :: 0 <= i < |w| ==> KeywordChar(w[i])
    requires rest == "" || !KeywordChar(rest[0])
    ensures Word(Lex(w + rest)) == w
  {
    if w == "" {
      assert w + rest == rest;
      NoKeywordChar(rest);
    } else {
      WordRuns(w[1..], rest);
      LexKeywordChar(w[0], w[1..] + rest);
      ConsConcat(w, rest);
      hide Lex;
      var ls := Lex(w[1..] + rest);
      assert ([Plain(w[0])] + ls)[1..] == ls;
    }
  }

  lemma {:induction false} NoKeywordChar(rest: string)
    requires rest == "" || !KeywordChar(rest[0])
    ensures Word(Lex(rest)) == ""
  {
  }

  lemma {:induction false} LexKeywordChar(c: char, rest: string)
    requires KeywordChar(c)
    ensures Lex([c] + rest) == [Plain(c)] + Lex(rest)
  {
    var s := [c] + rest;
    assert First(s) == Plain(c) && s[1..] == rest;
  }

  /** The leading keyword is the run of letters, digits and underscores at the start, in capitals;
      there is none when the text starts otherwise, blanks and comments aside. */
  lemma {:induction false} KeywordIs(w: string, rest: string)
    requires forall i :: 0 <= i < |w| ==> KeywordChar(w[i])
    requires rest == "" || !KeywordChar(rest[0])
    ensures w != "" ==> Keyword(w + rest) == Some(Upper(w))
    ensures w == "" && rest != "" && !BlankChar(rest[0]) && !OpensLine(rest) && !OpensBlock(rest) ==>
              Keyword(w + rest) == None
  {
    WordRuns(w, rest);
    if w != "" {
      LexKeywordChar(w[0], w[1..] + rest);
      ConsConcat(w, rest);
      hide Lex;
      assert SkipBlanks(Lex(w + rest)) == Lex(w + rest);
    } else if rest != "" && !BlankChar(rest[0]) && !OpensLine(rest) && !OpensBlock(rest) {
      assert w + rest == rest;
      assert !Blank(First(rest));
      hide Word;
      assert SkipBlanks(Lex(rest)) == Lex(rest);
    }
  }

  /** Blanks and comments in front do not matter. */
  lemma {:induction false} KeywordBehind(s: string)
    requires s != "" && (BlankChar(s[0]) || OpensLine(s) || OpensBlock(s))
    ensures Keyword(s) == Keyword(s[|First(s).Text()|..])
  {
    assert Blank(First(s));
    var rest := s[|First(s).Text()|..];
    assert Lex(s) == [First(s)] + Lex(rest);
    hide Lex;
    assert ([First(s)] + Lex(rest))[1..] == Lex(rest);
  }

  /** A parenthesis or a comma is a token; blanks are none. */
  lemma {:induction false} TokenOfChar(c: char, rest: string)
    ensures c in {'(', ')', ','} ==> Tokenize([c] + rest) == [[c]] + Tokenize(rest)
    ensures BlankChar(c) ==> Tokenize([c] + rest) == Tokenize(rest)
  {
    var s := [c] + rest;
    assert s[1..] == rest && s[..1] == [c];
  }

  /** A bare token runs up to a blank, a parenthesis, a comma or a quote. */
  predicate BareChar(c: char) {
    !BlankChar(c) && c !in {'(', ')', ',', '\'', '"'}
  }

  lemma {:induction false} BareRun(w: string, rest: string)
    requires forall i :: 0 <= i < |w| ==> BareChar(w[i])
    requires rest == "" || !BareChar(rest[0])
    ensures BareLength(w + rest) == |w|
  {
    if w == "" {
      assert w + rest == rest;
    } else {
      ConsConcat(w, rest);
      BareRun(w[1..], rest);
    }
  }

  lemma {:induction false} TokenOfWord(w: string, rest: string)
    requires w != "" && forall i :: 0 <= i < |w| ==> BareChar(w[i])
    requires rest == "" || !BareChar(rest[0])
    ensures Tokenize(w + rest) == [w] + Tokenize(rest)
  {
    var s := w + rest;
    assert s[0] == w[0];
    BareRun(w, rest);
    assert s[..|w|] == w && s[|w|..] == rest;
  }

  /** A quoted text is a token with its quotes. */
  lemma {:induction false} TokenOfQuoted(v: string, q: char, rest: string)
    requires (q == '\'' || q == '"') && (rest == "" || rest[0] != q)
    ensures Tokenize(Quote(v, q) + rest) == [Quote(v, q)] + Tokenize(rest)
  {
    var t := Quote(v, q);
    var s := t + rest;
    QuoteLengthDouble(v, q, rest);
    assert s[0] == q && s[1..] == Double(v, q) + ([q] + rest);
    assert s[..|t|] == t && s[|t|..] == rest;
  }
}
