/**
 Exactly where the ATTACH parser puts up with a comment.

 It tokenizes without stripping, so a comment is words like any others: its first word stands
 where the grammar expects a keyword, the path, an alias or the option block, and no keyword and
 no parenthesis begins like a comment. A comment that follows a delimiter starts a token of its
 own; one that touches a word becomes part of that word. What comes before the comment is read
 as it would be without it, and decides which place the comment takes; what comes behind it is
 read as the rest of the statement.
 */
module AttachComments {
  import opened Ascii
  import opened Sequences
  import opened Lexemes
  import opened Statements
  import opened Wrappers
  import opened Tokens
  import opened Attach
  import opened Keywords

  predicate OpensComment(t: string) {
    OpensLine(t) || OpensBlock(t)
  }

  /** A token of a comment's first characters, which no keyword is. */
  predicate Dashed(t: string) {
    t != "" && (t[0] == '-' || t[0] == '/')
  }

  lemma {:induction false} DashedFacts(t: string, keyword: string)
    requires Dashed(t) && keyword != "" && IsAlphanumeric(keyword[0])
    ensures !EqIgnoreCase(t, keyword)
  {
    assert Lower(t)[0] == t[0];
    assert Lower(keyword)[0] == LowerChar(keyword[0]);
  }

  // --- Acceptance, on tokens ---

  lemma {:induction false} AcceptedIff(config: string, name: string, readOnly: bool)
    ensures Normalize(config, name, readOnly).Some?
       <==> SingleStatement(config).Some? && ParseAttach(SingleStatement(config).value).Some?
  {
    hide SingleStatement, FinalOptions, Print, Tokenize, Keyword, PathIndex, OptionsIndex, EqIgnoreCase, Rebuild;
    if SingleStatement(config).Some? && ParseAttach(SingleStatement(config).value).Some? {
      SingleTrimmed(config);
      FirstIsKeyword(SingleStatement(config).value, "ATTACH");
    }
  }

  // --- A comment that begins a token ---

  /** Nothing more, or an option block. */
  predicate Finished(ts: seq<string>) {
    ts == [] || ts[0] == "("
  }

  /** What may follow a path. */
  predicate AfterPath(ts: seq<string>) {
    Finished(ts) || (TokenEq(ts, 0, "AS") && (Finished(ts[1..]) || Finished(ts[2..])))
  }

  /** The tokens before the comment end inside an option block, or behind one. */
  predicate InBlock(before: seq<string>) {
    var p := PathIndex(before);
    p < |before| && before[p] != "(" && OptionsIndex(before, p) < |before| && before[OptionsIndex(before, p)] == "("
  }

  /** They end with the AS of the path. */
  predicate WantsAlias(before: seq<string>) {
    |before| == PathIndex(before) + 2 && TokenEq(before, PathIndex(before) + 1, "AS")
  }

  /** Whether a comment can stand behind these tokens: it is taken for the path, or for the
      alias, and then nothing but the rest of a statement follows its first word; or it goes
      into the options. */
  predicate Accepts(before: seq<string>, comment: seq<string>)
    requires comment != []
  {
    var p := PathIndex(before);
    && TokenEq(before, 0, "ATTACH")
    && (|| (|before| == p && AfterPath(comment[1..]))
        || (WantsAlias(before) && before[p] != "(" && Finished(comment[1..]))
        || InBlock(before))
  }

  lemma {:induction false} PathStays(before: seq<string>, comment: seq<string>)
    requires comment != [] && Dashed(comment[0]) && TokenEq(before, 0, "ATTACH")
    ensures PathIndex(before + comment) == PathIndex(before) <= |before|
  {
    DashedFacts(comment[0], "OR");
    DashedFacts(comment[0], "REPLACE");
    DashedFacts(comment[0], "DATABASE");
    DashedFacts(comment[0], "IF");
    DashedFacts(comment[0], "NOT");
    DashedFacts(comment[0], "EXISTS");
    var all := before + comment;
    assert all[|before|] == comment[0];
    hide EqIgnoreCase;
  }

  lemma {:induction false} TokensAccepted(before: seq<string>, comment: seq<string>)
    requires before != [] && comment != [] && Dashed(comment[0])
    ensures ParseTokens(before + comment).Some? <==> Accepts(before, comment)
    ensures Accepts(before, comment) && InBlock(before) ==>
              var p := PathIndex(before);
              && p < |before| && OptionsIndex(before, p) < |before|
              && ParseTokens(before + comment)
              == Some(ParsedAttach(before[p], Rebuild(before[OptionsIndex(before, p)..] + comment)))
  {
    var all := before + comment;
    assert all[0] == before[0];
    hide EqIgnoreCase, Rebuild, PathIndex;
    if TokenEq(before, 0, "ATTACH") {
      PathStays(before, comment);
      hide OptionsIndex;
      var p := PathIndex(before);
      if p == |before| {
        PathPlace(before, comment);
      } else {
        BehindPath(before, comment, p);
        assert all[p] == before[p];
        if OptionsIndex(before, p) < |before| {
          assert all[OptionsIndex(before, p)..] == before[OptionsIndex(before, p)..] + comment;
        }
      }
    }
  }

  /** The comment stands where the path should. */
  lemma {:induction false} PathPlace(before: seq<string>, comment: seq<string>)
    requires comment != []
    ensures var all, p := before + comment, |before|;
            all[p] == comment[0] && p < OptionsIndex(all, p) <= |all|
            && (Finished(all[OptionsIndex(all, p)..]) <==> AfterPath(comment[1..]))
  {
    var all, p, ts := before + comment, |before|, comment[1..];
    hide EqIgnoreCase;
    assert all[p] == comment[0] && all[p + 1..] == ts;
    assert TokenEq(all, p + 1, "AS") == TokenEq(ts, 0, "AS");
    if TokenEq(ts, 0, "AS") {
      assert all[p + 2..] == ts[1..] == comment[2..];
      if |ts| > 1 {
        assert all[p + 2] == comment[2] == ts[1] && all[p + 3..] == ts[2..];
      }
    }
  }

  /** The comment stands behind the path. */
  lemma {:induction false} BehindPath(before: seq<string>, comment: seq<string>, p: nat)
    requires comment != [] && Dashed(comment[0]) && p < |before|
    ensures var all, o := before + comment, OptionsIndex(before, p);
            var o' := OptionsIndex(all, p);
            && o' <= |all| && (o < |before| ==> o' == o)
            && (Finished(all[o'..])
                <==> (o < |before| && before[o] == "(")
                     || (|before| == p + 2 && TokenEq(before, p + 1, "AS") && Finished(comment[1..])))
  {
    var all, n := before + comment, |before|;
    DashedFacts(comment[0], "AS");
    hide EqIgnoreCase;
    assert all[n] == comment[0] && all[n..] == comment && all[n + 1..] == comment[1..];
    assert forall i :: 0 <= i < n ==> all[i] == before[i];
  }

  /** No quote is open at the end, and the last token ends there. */
  ghost predicate Apart(a: string) {
    && (forall t :: t in Tokenize(a) ==> Closed(t))
    && (a == "" || IsDelimiter(Last(a)))
  }

  lemma {:induction false} FirstFitsBefore(s: string, c: string)
    requires Starts(s) && Closed(s[..TokenLength(s)])
    requires OpensComment(c) && IsDelimiter(Last(s))
    ensures FitsToken(s[..TokenLength(s)], s[TokenLength(s)..] + c)
  {
    var n := TokenLength(s);
    var t, rest := s[..n], s[n..];
    var after := rest + c;
    assert s == t + rest && (t + after)[0] == t[0];
    if IsQuote(t[0]) {
      assert (t + rest)[1..] == t[1..] + rest && (t + after)[1..] == t[1..] + after;
      assert (t + " ")[1..] == t[1..] + " ";
      if rest != "" {
        QuoteClosed(t[1..], rest, t[0]);
      }
      QuoteStable(t[1..], " ", after, t[0]);
    } else if !IsPunct(t[0]) {
      BareStops(s);
      if rest == "" {
        BareHas(s);
        assert false;
      } else {
        assert after[0] == rest[0];
        BareStable(t, rest, after);
      }
    }
  }

  lemma {:induction false} BareHas(s: string)
    ensures forall i :: 0 <= i < BareLength(s) ==> !IsDelimiter(s[i])
  {
    if s != "" && !IsDelimiter(s[0]) {
      BareHas(s[1..]);
    }
  }

  lemma {:induction false} TokenizeApart(a: string, c: string)
    requires Apart(a) && OpensComment(c)
    ensures Tokenize(a + c) == Tokenize(a) + Tokenize(c)
  {
    if a == "" {
      assert a + c == c;
    } else if IsWhitespace(a[0]) {
      assert (a + c)[1..] == a[1..] + c;
      TokenizeApart(a[1..], c);
    } else {
      var n := TokenLength(a);
      FirstApart(a);
      TokenizeApart(a[n..], c);
      FirstToken(a);
      FirstFitsBefore(a, c);
      assert a == a[..n] + a[n..];
      JoinApart(a[..n], a[n..], c);
    }
  }

  lemma {:induction false} FirstApart(a: string)
    requires Apart(a) && Starts(a)
    ensures Apart(a[TokenLength(a)..]) && Closed(a[..TokenLength(a)])
  {
    var n := TokenLength(a);
    var t, rest := a[..n], a[n..];
    FirstToken(a);
    hide Closed, FitsToken, TokenLength, Tokenize, IsDelimiter;
    assert Tokenize(a) == [t] + Tokenize(rest);
    assert forall u :: u in Tokenize(rest) ==> u in Tokenize(a);
    assert t == Tokenize(a)[0];
    assert rest != "" ==> Last(rest) == Last(a);
  }

  lemma {:induction false} JoinApart(t: string, rest: string, c: string)
    requires FitsToken(t, rest) && FitsToken(t, rest + c)
    requires Tokenize(rest + c) == Tokenize(rest) + Tokenize(c)
    ensures Tokenize((t + rest) + c) == Tokenize(t + rest) + Tokenize(c)
  {
    TokenizeFirst(t, rest);
    TokenizeFirst(t, rest + c);
    hide FitsToken, Tokenize;
    ConcatAssoc(t, rest, c);
    ConcatAssoc([t], Tokenize(rest), Tokenize(c));
  }

  /** A statement with a comment that does not touch the word before it: whether it is
      accepted. `c` is the comment and all that comes behind it. */
  lemma {:induction false} CommentAcceptedIff(config: string, name: string, readOnly: bool, a: string, c: string)
    requires SingleStatement(config) == Some(a + c) && OpensComment(c) && Apart(a)
    ensures Tokenize(c) != []
    ensures Normalize(config, name, readOnly).Some? <==> Accepts(Tokenize(a), Tokenize(c))
  {
    TokenizeApart(a, c);
    FirstToken(c);
    AcceptedIff(config, name, readOnly);
    hide Normalize, Tokenize, SingleStatement, FitsToken;
    var before, comment := Tokenize(a), Tokenize(c);
    assert Dashed(comment[0]);
    if before == [] {
      assert before + comment == comment;
      DashedFacts(comment[0], "ATTACH");
    } else {
      TokensAccepted(before, comment);
    }
  }

  /** A statement with a leading comment is refused, even when its keyword is ATTACH. */
  lemma {:induction false} LeadingCommentRefused(config: string, name: string, readOnly: bool)
    requires SingleStatement(config).Some? && OpensComment(SingleStatement(config).value)
    ensures Normalize(config, name, readOnly) == None
  {
    var s := SingleStatement(config).value;
    assert "" + s == s;
    CommentAcceptedIff(config, name, readOnly, "", s);
    TokenizeEmpty();
  }

  /** A comment that touches the keyword hides it. */
  lemma {:induction false} GluedCommentRefused(config: string, name: string, readOnly: bool, word: string, c: string)
    requires SingleStatement(config) == Some(word + c) && EqIgnoreCase(word, "ATTACH") && OpensComment(c)
    ensures Normalize(config, name, readOnly) == None
  {
    var s := word + c;
    LettersOf(word, "ATTACH");
    assert s[0] == word[0] && s[6] == c[0];
    assert forall i :: 0 <= i < 7 ==> !IsDelimiter(s[i]);
    BareRuns(s, 7);
    FirstToken(s);
    assert |Tokenize(s)[0]| >= 7;
    assert |Lower("ATTACH")| == 6;
  }

  lemma {:induction false} BareRuns(s: string, n: nat)
    requires n <= |s| && forall i :: 0 <= i < n ==> !IsDelimiter(s[i])
    ensures BareLength(s) >= n
  {
    if n > 0 {
      assert forall i :: 0 <= i < n - 1 ==> s[1..][i] == s[i + 1];
      BareRuns(s[1..], n - 1);
    }
  }

  /** Behind a path and its alias a comment is refused; behind an option block it is accepted,
      and its words go into the options. */
  lemma {:induction false} TrailingComment(config: string, name: string, readOnly: bool, a: string, c: string)
    requires SingleStatement(config) == Some(a + c) && OpensComment(c) && Apart(a)
    requires ParseAttach(a).Some? && !WantsAlias(Tokenize(a))
    ensures Normalize(config, name, readOnly).Some? <==> ParseAttach(a).value.options != ""
    ensures Normalize(config, name, readOnly).Some? ==>
              Normalize(config, name, readOnly).value
              == Print(ParseAttach(a).value.path, name,
                       FinalOptions(Rebuild(Tokenize(ParseAttach(a).value.options) + Tokenize(c)), readOnly))
  {
    var before, comment := Tokenize(a), Tokenize(c);
    CommentAcceptedIff(config, name, readOnly, a, c);
    TokenizeApart(a, c);
    TokenizeValid(a);
    BlockOfParsed(before);
    hide Tokenize, SingleStatement, PathIndex, OptionsIndex, Apart;
    if InBlock(before) {
      FirstToken(c);
      TokensAccepted(before, comment);
    }
  }

  /** The options of parsed tokens are their block, and none but for want of one. */
  lemma {:induction false} BlockOfParsed(ts: seq<string>)
    requires ParseTokens(ts).Some? && ValidTokens(ts)
    ensures var p := PathIndex(ts);
            && p < |ts| && ts[p] != "(" && (|ts| != p + 2 || TokenEq(ts, p + 1, "AS") || InBlock(ts))
            && ParseTokens(ts).value.path == ts[p]
            && (InBlock(ts) <==> ParseTokens(ts).value.options != "")
            && (InBlock(ts) ==> Tokenize(ParseTokens(ts).value.options) == ts[OptionsIndex(ts, p)..])
            && (!InBlock(ts) ==> |ts| <= p + 3)
  {
    var p := PathIndex(ts);
    var o := OptionsIndex(ts, p);
    hide PathIndex;
    if o < |ts| {
      assert ValidTokens(ts[o..]);
      TokenizeRebuild(ts[o..]);
    }
  }
}
