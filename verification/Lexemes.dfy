/**
 The lexical structure shared by the statement splitter, the comment stripper and the keyword
 scanner: quoted strings, comments, semicolons and plain characters.

 Every function here consumes a suffix of the text, so that facts about one lexeme can be
 moved between texts that share it. A quoted string doubles its quote to hold one, and runs
 to the end of the text when it is not closed; a line comment leaves its newline behind; a
 block comment does not nest. What can follow a lexeme without changing it is said once, by
 `Fits`, and lists of lexemes that read back as themselves are `Canonical`.
 */
module Lexemes {
  import opened Ascii
  import opened Sequences

  datatype Lexeme =
    | Quoted(text: string)
    | Comment(body: string)
    | Semi
    | Plain(c: char)
  {
    function Text(): string {
      match this
      case Quoted(t) => t
      case Comment(t) => t
      case Semi => ";"
      case Plain(c) => [c]
    }
  }

  /** How many characters, after an opening quote, belong to the quoted string. */
  function QuoteLength(s: string, q: char): (n: nat)
    ensures n <= |s|
  {
    if s == "" then 0
    else if s[0] != q then 1 + QuoteLength(s[1..], q)
    else if |s| > 1 && s[1] == q then 2 + QuoteLength(s[2..], q)
    else 1
  }

  /** How many characters, after `--`, belong to the line comment (the newline does not). */
  function LineLength(s: string): (n: nat)
    ensures n <= |s|
  {
    if s == "" || s[0] == '\n' then 0 else 1 + LineLength(s[1..])
  }

  /** How many characters, after the opening of a block comment, belong to it. */
  function BlockLength(s: string): (n: nat)
    ensures n <= |s|
  {
    if s == "" then 0
    else if s[0] == '*' && |s| > 1 && s[1] == '/' then 2
    else 1 + BlockLength(s[1..])
  }

  predicate OpensLine(s: string) {
    |s| >= 2 && s[0] == '-' && s[1] == '-'
  }

  predicate OpensBlock(s: string) {
    |s| >= 2 && s[0] == '/' && s[1] == '*'
  }

  /** The first lexeme of a non-empty text. */
  function First(s: string): (l: Lexeme)
    requires s != ""
    ensures 0 < |l.Text()| <= |s| && l.Text() == s[..|l.Text()|]
  {
    if IsQuote(s[0]) then Quoted(s[..1 + QuoteLength(s[1..], s[0])])
    else if OpensLine(s) then Comment(s[..2 + LineLength(s[2..])])
    else if OpensBlock(s) then Comment(s[..2 + BlockLength(s[2..])])
    else if s[0] == ';' then Semi
    else Plain(s[0])
  }

  function Lex(s: string): seq<Lexeme> {
    if s == "" then [] else [First(s)] + Lex(s[|First(s).Text()|..])
  }

  function Render(ls: seq<Lexeme>): string {
    if ls == [] then "" else ls[0].Text() + Render(ls[1..])
  }

  lemma {:induction false} RenderCons(l: Lexeme, ls: seq<Lexeme>)
    ensures Render([l] + ls) == l.Text() + Render(ls)
  {
    assert ([l] + ls)[1..] == ls;
  }

  lemma {:induction false} RenderLex(s: string)
    ensures Render(Lex(s)) == s
  {
    if s != "" {
      var l := First(s);
      var rest := s[|l.Text()|..];
      assert s == l.Text() + rest && Lex(s) == [l] + Lex(rest);
      RenderLex(rest);
      hide *;
      RenderCons(l, Lex(rest));
    }
  }

  lemma {:induction false} RenderConcat(a: seq<Lexeme>, b: seq<Lexeme>)
    ensures Render(a + b) == Render(a) + Render(b)
  {
    if a == [] {
      assert a + b == b;
    } else {
      var rest := a[1..];
      assert Render(a) == a[0].Text() + Render(rest);
      hide *;
      RenderConcat(rest, b);
      ConsConcat(a, b);
      RenderCons(a[0], rest + b);
      ConcatAssoc(a[0].Text(), Render(rest), Render(b));
    }
  }

  // --- When a lexeme survives a change of what follows it ---

  /** `l` is what the scanner finds when its text is followed by `rest`. */
  predicate Fits(l: Lexeme, rest: string) {
    l.Text() != "" && First(l.Text() + rest) == l
  }

  lemma {:induction false} QuoteStable(t: string, r1: string, r2: string, q: char)
    requires QuoteLength(t + r1, q) == |t|
    requires r2 == "" || (r1 != "" && r2[0] != q)
    ensures QuoteLength(t + r2, q) == |t|
  {
    if t == "" {
      assert t + r1 == r1 && t + r2 == r2;
    } else if t[0] != q {
      assert (t + r1)[1..] == t[1..] + r1 && (t + r2)[1..] == t[1..] + r2;
      QuoteStable(t[1..], r1, r2, q);
    } else if |t| > 1 {
      assert t[1] == q;
      assert (t + r1)[2..] == t[2..] + r1 && (t + r2)[2..] == t[2..] + r2;
      QuoteStable(t[2..], r1, r2, q);
    }
  }

  lemma {:induction false} LineStable(t: string, r1: string, r2: string)
    requires LineLength(t + r1) == |t|
    requires r2 == "" || (r1 != "" && r2[0] == r1[0])
    ensures LineLength(t + r2) == |t|
  {
    if t == "" {
      assert t + r1 == r1 && t + r2 == r2;
    } else {
      assert (t + r1)[1..] == t[1..] + r1 && (t + r2)[1..] == t[1..] + r2;
      LineStable(t[1..], r1, r2);
    }
  }

  lemma {:induction false} BlockStable(t: string, r1: string, r2: string)
    requires BlockLength(t + r1) == |t|
    requires r2 == "" || r1 != ""
    ensures BlockLength(t + r2) == |t|
  {
    if t == "" {
      assert t + r1 == r1 && t + r2 == r2;
    } else if |t| == 1 {
      assert (t + r1)[1..] == r1 && (t + r2)[1..] == r2;
      assert r1 == "";
    } else if !(t[0] == '*' && t[1] == '/') {
      assert (t + r1)[1..] == t[1..] + r1 && (t + r2)[1..] == t[1..] + r2;
      BlockStable(t[1..], r1, r2);
    }
  }

  /** `r2` may follow wherever `r1` did: it is empty, starts the same way, or starts
      with a space (which only a line comment would absorb). */
  predicate MayReplace(l: Lexeme, r1: string, r2: string) {
    r2 == "" || (r1 != "" && (r2[0] == r1[0] || (r2[0] == ' ' && !l.Comment?)))
  }

  lemma {:induction false} FitsChange(l: Lexeme, r1: string, r2: string)
    requires Fits(l, r1) && MayReplace(l, r1, r2)
    ensures Fits(l, r2)
  {
    var t := l.Text();
    assert (t + r1)[0] == t[0] == (t + r2)[0];
    match l {
      case Quoted(_) => QuotedFitsChange(t, r1, r2);
      case Comment(_) => CommentFitsChange(t, r1, r2);
      case Semi =>
      case Plain(c) =>
        assert r1 != "" ==> (t + r1)[1] == r1[0];
        assert r2 != "" ==> (t + r2)[1] == r2[0];
    }
  }

  lemma {:induction false} QuotedFits(t: string, r: string)
    ensures Fits(Quoted(t), r) <==> t != "" && IsQuote(t[0]) && QuoteLength(t[1..] + r, t[0]) == |t| - 1
  {
    if t != "" {
      var s := t + r;
      assert s[0] == t[0] && s[1..] == t[1..] + r && s[..|t|] == t;
    }
  }

  lemma {:induction false} QuotedFitsChange(t: string, r1: string, r2: string)
    requires Fits(Quoted(t), r1) && MayReplace(Quoted(t), r1, r2)
    ensures Fits(Quoted(t), r2)
  {
    QuotedFits(t, r1);
    QuotedFits(t, r2);
    hide Fits, First, QuoteLength;
    if r1 != "" {
      QuoteClosed(t[1..], r1, t[0]);
    }
    QuoteStable(t[1..], r1, r2, t[0]);
  }

  lemma {:induction false} CommentFitsChange(t: string, r1: string, r2: string)
    requires Fits(Comment(t), r1) && MayReplace(Comment(t), r1, r2)
    ensures Fits(Comment(t), r2)
  {
    var s1, s2 := t + r1, t + r2;
    assert s1[0] == t[0] == s2[0] && !IsQuote(t[0]);
    assert |t| >= 2;
    assert s1[2..] == t[2..] + r1 && s2[2..] == t[2..] + r2;
    if OpensLine(s1) {
      LineStable(t[2..], r1, r2);
    } else {
      BlockStable(t[2..], r1, r2);
    }
    assert s2[..|t|] == t;
  }

  /** A quoted string that stops before the end of the text is not followed by its quote. */
  lemma {:induction false} QuoteClosed(t: string, r: string, q: char)
    requires QuoteLength(t + r, q) == |t| && r != ""
    ensures r[0] != q
  {
    if t == "" {
      assert t + r == r;
    } else if t[0] != q {
      assert (t + r)[1..] == t[1..] + r;
      QuoteClosed(t[1..], r, q);
    } else if |t| > 1 {
      assert (t + r)[2..] == t[2..] + r;
      QuoteClosed(t[2..], r, q);
    }
  }

  /** A lexeme list that the scanner gives back when it reads the list's own text. */
  predicate Canonical(ls: seq<Lexeme>) {
    ls == [] || (Fits(ls[0], Render(ls[1..])) && Canonical(ls[1..]))
  }

  lemma {:induction false} CanonicalLex(s: string)
    ensures Canonical(Lex(s))
  {
    if s != "" {
      var l := First(s);
      var rest := s[|l.Text()|..];
      CanonicalLex(rest);
      assert Fits(l, Render(Lex(rest))) by {
        RenderLex(rest);
        assert s == l.Text() + rest;
      }
      assert Lex(s) == [l] + Lex(rest);
      assert Lex(s)[1..] == Lex(rest);
    }
  }

  lemma {:induction false} LexCanonical(ls: seq<Lexeme>)
    requires Canonical(ls)
    ensures Lex(Render(ls)) == ls
  {
    if ls != [] {
      LexCanonical(ls[1..]);
      assert Render(ls)[|ls[0].Text()|..] == Render(ls[1..]);
    }
  }

  lemma {:induction false} RenderStart(ls: seq<Lexeme>)
    requires ls != [] && ls[0].Text() != ""
    ensures Render(ls) != "" && Render(ls)[0] == ls[0].Text()[0]
  {
  }

  lemma {:induction false} CanonicalPrefix(a: seq<Lexeme>, b: seq<Lexeme>)
    requires Canonical(a + b)
    ensures Canonical(a)
  {
    if a != [] {
      hide First;
      assert (a + b)[1..] == a[1..] + b;
      CanonicalPrefix(a[1..], b);
      RenderConcat(a[1..], b);
      FitsChange(a[0], Render(a[1..] + b), Render(a[1..]));
    }
  }

  lemma {:induction false} CanonicalSuffix(a: seq<Lexeme>, b: seq<Lexeme>)
    requires Canonical(a + b)
    ensures Canonical(b)
  {
    if a == [] {
      assert a + b == b;
    } else {
      assert (a + b)[1..] == a[1..] + b;
      CanonicalSuffix(a[1..], b);
    }
  }

  lemma {:induction false} CanonicalCons(l: Lexeme, ls: seq<Lexeme>)
    requires Fits(l, Render(ls)) && Canonical(ls)
    ensures Canonical([l] + ls)
  {
    assert ([l] + ls)[1..] == ls;
  }

  lemma {:induction false} FitsBefore(l: Lexeme, rest: seq<Lexeme>, b: seq<Lexeme>)
    requires Fits(l, Render(rest)) && rest != [] && rest[0].Text() != ""
    ensures Fits(l, Render(rest + b))
  {
    RenderConcat(rest, b);
    RenderStart(rest);
    FitsChange(l, Render(rest), Render(rest) + Render(b));
  }

  lemma {:induction false} CanonicalConcat(a: seq<Lexeme>, b: seq<Lexeme>)
    requires Canonical(a) && Canonical(b)
    requires a != [] ==> Fits(a[|a| - 1], Render(b))
    ensures Canonical(a + b)
    decreases |a|
  {
    hide First;
    if a == [] {
      assert a + b == b;
    } else if |a| == 1 {
      CanonicalCons(a[0], b);
      assert a + b == [a[0]] + b;
    } else {
      var rest := a[1..];
      assert rest[|rest| - 1] == a[|a| - 1];
      CanonicalConcat(rest, b);
      FitsBefore(a[0], rest, b);
      CanonicalCons(a[0], rest + b);
      ConsConcat(a, b);
    }
  }
}
