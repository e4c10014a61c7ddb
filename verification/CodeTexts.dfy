/**
 Code text: quoted strings and plain characters only, with no comment and no top-level
 semicolon. Parts of code text are code text, its tokens are, and printing closed code tokens
 one behind the other lexes to their lexemes one behind the other. The normaliser and the
 secret statements build their text from such tokens, so that what they print can be lexed
 again token by token, and nothing in one token changes how the next one is read.
 */
module CodeTexts {
  import opened Ascii
  import opened Sequences
  import opened Lexemes
  import opened Statements
  import opened Wrappers
  import opened Tokens
  import opened Attach

  /** Only quoted strings and plain characters: no comment, no top-level semicolon. */
  ghost predicate Code(ls: seq<Lexeme>) {
    forall i :: 0 <= i < |ls| ==> ls[i].Quoted? || ls[i].Plain?
  }

  ghost predicate NoComments(ls: seq<Lexeme>) {
    forall i :: 0 <= i < |ls| ==> !ls[i].Comment?
  }

  ghost predicate CodeText(s: string) {
    Code(Lex(s))
  }

  // --- Taking code text apart ---

  lemma {:induction false} CodeTail(s: string)
    requires CodeText(s) && s != ""
    ensures First(s).Quoted? || First(s).Plain?
    ensures Lex(s) == [First(s)] + Lex(s[|First(s).Text()|..])
    ensures CodeText(s[|First(s).Text()|..])
  {
    var rest := Lex(s[|First(s).Text()|..]);
    assert Lex(s)[0] == First(s);
    forall i | 0 <= i < |rest| ensures rest[i].Quoted? || rest[i].Plain? {
      assert rest[i] == Lex(s)[i + 1];
    }
  }

  lemma {:induction false} CodeCons(s: string, l: Lexeme)
    requires s != "" && First(s) == l && (l.Quoted? || l.Plain?) && CodeText(s[|l.Text()|..])
    ensures CodeText(s)
  {
  }

  /** A quoted string cut anywhere inside is an unterminated quoted string. */
  lemma {:induction false} QuoteLengthPrefix(s: string, k: nat, q: char)
    requires k <= QuoteLength(s, q)
    ensures QuoteLength(s[..k], q) == k
  {
    if k > 0 {
      if s[0] != q {
        assert s[..k][1..] == s[1..][..k - 1];
        QuoteLengthPrefix(s[1..], k - 1, q);
      } else if k > 1 {
        assert s[..k][2..] == s[2..][..k - 2];
        QuoteLengthPrefix(s[2..], k - 2, q);
      }
    }
  }

  lemma {:induction false} CodePrefix(s: string, k: nat)
    requires CodeText(s) && k <= |s|
    ensures CodeText(s[..k])
    decreases |s|
  {
    if k > 0 {
      CodeTail(s);
      var n := |First(s).Text()|;
      if k <= n {
        CodePrefixFirst(s, k);
      } else {
        CodePrefix(s[n..], k - n);
        CodePrefixRest(s, k);
      }
    }
  }

  lemma {:induction false} CodePrefixFirst(s: string, k: nat)
    requires CodeText(s) && s != "" && 0 < k <= |First(s).Text()|
    ensures CodeText(s[..k])
  {
    CodeTail(s);
    var t := s[..k];
    if First(s).Quoted? {
      assert t[1..] == s[1..][..k - 1];
      QuoteLengthPrefix(s[1..], k - 1, s[0]);
      assert t[..k] == t && t[k..] == "";
      CodeCons(t, Quoted(t));
    } else {
      assert t == [s[0]] && t[1..] == "";
      CodeCons(t, Plain(s[0]));
    }
  }

  lemma {:induction false} CodePrefixRest(s: string, k: nat)
    requires s != "" && (First(s).Quoted? || First(s).Plain?)
    requires |First(s).Text()| < k <= |s|
    requires CodeText(s[|First(s).Text()|..][..k - |First(s).Text()|])
    ensures CodeText(s[..k])
  {
    var l := First(s);
    var n := |l.Text()|;
    var r1, r2 := s[n..], s[n..][..k - n];
    assert s == l.Text() + r1 && s[..k] == l.Text() + r2;
    assert r2[0] == r1[0];
    FitsChange(l, r1, r2);
    assert s[..k][n..] == r2;
    CodeCons(s[..k], l);
  }

  lemma {:induction false} CodeTrimStart(s: string)
    requires CodeText(s)
    ensures CodeText(TrimStart(s))
  {
    if s != "" && IsWhitespace(s[0]) {
      CodeTail(s);
      hide CodeText;
      CodeTrimStart(s[1..]);
    }
  }

  lemma {:induction false} CodeTrim(s: string)
    requires CodeText(s)
    ensures CodeText(Trim(s))
  {
    CodeTrimStart(s);
    TrimEndEnds(TrimStart(s));
    assert TrimEnd(TrimStart(s)) == TrimStart(s)[..|TrimEnd(TrimStart(s))|];
    CodePrefix(TrimStart(s), |TrimEnd(TrimStart(s))|);
  }

  // --- Tokens of code text are code text ---

  lemma {:induction false} CodeDrop(s: string, n: nat)
    requires CodeText(s) && n <= BareLength(s)
    ensures CodeText(s[n..])
  {
    if n > 0 {
      CodeTail(s);
      hide CodeText, Lex, QuoteLength;
      CodeDrop(s[1..], n - 1);
      assert s[1..][n - 1..] == s[n..];
    }
  }

  lemma {:induction false} CodeFirstToken(s: string)
    requires CodeText(s) && Starts(s)
    ensures CodeText(s[..TokenLength(s)]) && CodeText(s[TokenLength(s)..])
  {
    CodePrefix(s, TokenLength(s));
    if IsQuote(s[0]) || IsPunct(s[0]) {
      CodeTail(s);
    } else {
      CodeDrop(s, BareLength(s));
    }
  }

  lemma {:induction false} CodeTokens(s: string)
    requires CodeText(s)
    ensures forall t :: t in Tokenize(s) ==> CodeText(t)
  {
    if s == "" {
    } else if IsWhitespace(s[0]) {
      CodeTail(s);
      hide CodeText, Lex;
      CodeTokens(s[1..]);
    } else {
      hide CodeText, Lex;
      CodeFirstToken(s);
      CodeTokens(s[TokenLength(s)..]);
    }
  }

  // --- Putting code tokens together ---

  /** A plain character stays plain when what follows it starts with a delimiter. */
  lemma {:induction false} PlainBefore(c: char, t: string, r: string)
    requires !IsDelimiter(c) && First([c] + t) == Plain(c)
    requires r == "" || IsDelimiter(r[0])
    ensures First([c] + (t + r)) == Plain(c)
  {
    var s := [c] + (t + r);
    assert t != "" ==> s[1] == ([c] + t)[1];
    assert t == "" && r != "" ==> s[1] == r[0];
  }

  /** Code text made of bare characters, followed by a delimiter. */
  lemma {:induction false} LexBareConcat(t: string, r: string)
    requires CodeText(t) && forall c :: c in t ==> !IsDelimiter(c)
    requires r == "" || IsDelimiter(r[0])
    ensures Lex(t + r) == Lex(t) + Lex(r)
  {
    if t == "" {
      assert t + r == r && Lex(t) + Lex(r) == Lex(r);
    } else {
      CodeTail(t);
      assert t[0] in t && First(t) == Plain(t[0]) && t == [t[0]] + t[1..];
      LexBareConcat(t[1..], r);
      PlainBefore(t[0], t[1..], r);
      LexPlain(t[0], t[1..] + r);
      hide CodeText, First, Lex;
      ConsConcat(t, r);
      ConcatAssoc([Plain(t[0])], Lex(t[1..]), Lex(r));
    }
  }

  lemma {:induction false} LexPlain(c: char, rest: string)
    requires First([c] + rest) == Plain(c)
    ensures Lex([c] + rest) == [Plain(c)] + Lex(rest)
  {
    assert ([c] + rest)[1..] == rest;
  }

  lemma {:induction false} BareChars(t: string)
    requires BareLength(t) == |t|
    ensures forall c :: c in t ==> !IsDelimiter(c)
  {
    if t != "" {
      BareChars(t[1..]);
    }
  }

  /** A code token and what may follow it lex to their own lexemes. */
  lemma {:induction false} LexToken(t: string, r: string)
    requires CodeText(t) && Token(t) && FitsToken(t, r) && MayFollow(t, r)
    ensures Lex(t + r) == Lex(t) + Lex(r)
  {
    var s := t + r;
    assert t + "" == t;
    assert s[0] == t[0];
    if IsQuote(t[0]) {
      assert s[..|t|] == t && s[|t|..] == r;
      assert First(s) == First(t) == Quoted(t);
      assert t[|t|..] == "" && Lex("") == [];
    } else if IsPunct(t[0]) {
      assert t == [t[0]] && s == [t[0]] + r;
      LexPlain(t[0], r);
      LexPlain(t[0], "");
      assert [t[0]] + "" == t && Lex("") == [] && [Plain(t[0])] + [] == [Plain(t[0])];
    } else {
      BareChars(t);
      LexBareConcat(t, r);
    }
  }

  lemma {:induction false} CodeConcat(t: string, r: string)
    requires CodeText(t) && CodeText(r) && Token(t)
    requires FitsToken(t, r) && MayFollow(t, r)
    ensures CodeText(t + r)
  {
    LexToken(t, r);
    hide Lex, Token, FitsToken, MayFollow;
  }

  /** A closed code token and a space in front of a text. */
  lemma {:induction false} LexSpaced(t: string, rest: string)
    requires CodeText(t) && Closed(t)
    ensures Lex(t + (" " + rest)) == Lex(t) + ([Plain(' ')] + Lex(rest))
  {
    var r := " " + rest;
    assert First(r) == Plain(' ');
    LexPlain(' ', rest);
    ClosedIfFollowed(t, " ");
    ClosedFits(t, r);
    LexToken(t, r);
  }

  lemma {:induction false} CodeSpaced(t: string, rest: string)
    requires CodeText(t) && Closed(t) && CodeText(rest)
    ensures CodeText(t + (" " + rest))
  {
    LexSpaced(t, rest);
    hide Lex, Closed;
  }

  lemma {:induction false} CodeTailText(prev: string, ts: seq<string>)
    requires ValidTokens([prev] + ts) && forall t :: t in [prev] + ts ==> CodeText(t)
    ensures CodeText(prev + Tail(prev, ts))
    decreases |ts|
  {
    assert ([prev] + ts)[0] == prev && prev in [prev] + ts;
    if ts == [] {
      assert prev + Tail(prev, ts) == prev;
    } else {
      var rest := ts[1..];
      assert ([prev] + ts)[1] == ts[0];
      assert forall i :: 0 <= i < |ts| ==> ts[i] == ([prev] + ts)[i + 1];
      assert [ts[0]] + rest == ts;
      CodeTailText(ts[0], rest);
      PunctIsOneCharacter(prev);
      TailFollows(prev, ts);
      ClosedFits(prev, Tail(prev, ts));
      ConcatAssoc(Separator(prev, ts[0]), ts[0], Tail(ts[0], rest));
      CodeSeparated(Separator(prev, ts[0]), ts[0] + Tail(ts[0], rest));
      CodeConcat(prev, Tail(prev, ts));
    }
  }

  lemma {:induction false} CodeSeparated(sep: string, rest: string)
    requires CodeText(rest) && (sep == "" || sep == " ")
    ensures CodeText(sep + rest)
  {
    if sep == "" {
      assert sep + rest == rest;
    } else {
      assert (sep + rest)[1..] == rest;
      CodeCons(sep + rest, Plain(' '));
    }
  }

  lemma {:induction false} CodeRebuild(ts: seq<string>)
    requires ValidTokens(ts) && forall t :: t in ts ==> CodeText(t)
    ensures CodeText(Rebuild(ts))
  {
    if ts != [] {
      assert [ts[0]] + ts[1..] == ts;
      CodeTailText(ts[0], ts[1..]);
    }
  }

  lemma {:induction false} CodeWord(w: string)
    requires forall c :: c in w ==> IsAlphanumeric(c) || c == '_' || c == '(' || c == ')' || c == ','
    ensures CodeText(w)
  {
    if w != "" {
      assert w[0] in w;
      CodeWord(w[1..]);
      CodeCons(w, Plain(w[0]));
    }
  }

  lemma {:induction false} CodeQuoted(t: string)
    requires Token(t) && IsQuote(t[0])
    ensures CodeText(t)
  {
    assert t + "" == t && t[|t|..] == "";
    CodeCons(t, Quoted(t));
  }

  lemma {:induction false} CodeWords(words: seq<string>, rest: string)
    requires forall i :: 0 <= i < |words| ==> Closed(words[i]) && CodeText(words[i])
    requires CodeText(rest)
    ensures CodeText(Spaced(words, rest))
  {
    if words != [] {
      hide CodeText, Closed;
      CodeWords(words[1..], rest);
      CodeSpaced(words[0], Spaced(words[1..], rest));
    }
  }

  // --- One statement ---

  /** No semicolon outside quotes and comments. */
  ghost predicate OneStatement(s: string) {
    forall i :: 0 <= i < |Lex(s)| ==> !Lex(s)[i].Semi?
  }

  lemma {:induction false} OneStatementSplits(s: string)
    requires s != ""
    ensures Split(s) == [s] <==> OneStatement(s)
  {
    var ls := Lex(s);
    RenderLex(s);
    if OneStatement(s) {
      hide Lex, Render;
      assert forall l :: l in ls ==> !l.Semi?;
      CutNoSemi([], ls);
      assert [] + ls == ls;
    } else if Split(s) == [s] {
      AloneHasNoSemi(s);
    }
  }

  lemma {:induction false} AloneHasNoSemi(s: string)
    requires Split(s) == [s]
    ensures OneStatement(s)
  {
    PiecesStandalone(s);
    hide Lex;
    var p := Cut(Lex(s))[0];
    assert p in Cut(Lex(s)) && Render(p) == Split(s)[0];
    assert forall i :: 0 <= i < |p| ==> p[i] in p;
  }

  lemma {:induction false} CodeIsOneStatement(s: string)
    requires CodeText(s)
    ensures OneStatement(s)
  {
  }

  // --- Texts without a semicolon ---

  lemma {:induction false} SemiShows(s: string)
    requires !OneStatement(s)
    ensures exists i :: 0 <= i < |s| && s[i] == ';'
  {
    var l := First(s);
    var rest := s[|l.Text()|..];
    if l.Semi? {
      assert s[0] == ';';
    } else {
      assert Lex(s) == [l] + Lex(rest);
      assert !OneStatement(rest) by {
        var i :| 0 <= i < |Lex(s)| && Lex(s)[i].Semi?;
        assert i > 0 && Lex(rest)[i - 1] == Lex(s)[i];
      }
      hide Lex, First;
      SemiShows(rest);
      var i :| 0 <= i < |rest| && rest[i] == ';';
      assert s[i + |l.Text()|] == ';';
    }
  }

  /** A trimmed text without a semicolon is a single statement. */
  lemma {:induction false} AloneStatement(s: string)
    requires s != "" && !IsWhitespace(s[0]) && !IsWhitespace(s[|s| - 1])
    requires forall i :: 0 <= i < |s| ==> s[i] != ';'
    ensures SingleStatement(s) == Some(s)
  {
    if !OneStatement(s) {
      SemiShows(s);
    }
    OneStatementSplits(s);
    TrimIdentity(s);
    hide Split, Trim, OneStatement;
    assert [s][1..] == [] && NonBlank([]) == [];
    assert NonBlank([s]) == [s];
  }
}
