/** When the READ_ONLY flag is still there for a reader that skips comments. */
module ReadOnlyFlags {
  import opened Ascii
  import opened Sequences
  import opened Lexemes
  import opened Statements
  import opened Tokens
  import opened Options
  import opened Attach
  import opened AttachComments
  import opened CodeTexts

  ghost predicate CommentFree(s: string) {
    NoComments(Lex(s))
  }

  // --- Stripping, one lexeme at a time ---

  lemma {:induction false} StripStep(s: string)
    requires s != ""
    ensures var l := First(s);
            var rest := s[|l.Text()|..];
            && Strip(s) == StripLexeme(l).Text() + Strip(rest)
            && (CommentFree(s) <==> !l.Comment? && CommentFree(rest))
            && (l.Comment? ==> |l.Text()| >= 2)
  {
    var l := First(s);
    var rest := s[|l.Text()|..];
    var ls := Lex(rest);
    assert Lex(s) == [l] + ls;
    StripCons(Lex(s));
    assert Lex(s)[1..] == ls;
    hide Lex;
    if CommentFree(s) {
      assert Lex(s)[0] == l && forall i :: 0 <= i < |ls| ==> ls[i] == Lex(s)[i + 1];
    }
  }

  lemma {:induction false} StripNothing()
    ensures Strip("") == "" && CommentFree("")
  {
    assert Lex("") == [] && StripLexemes([]) == [];
  }

  lemma {:induction false} StripShortens(s: string)
    ensures |Strip(s)| <= |s|
    ensures |Strip(s)| == |s| <==> CommentFree(s)
    ensures CommentFree(s) ==> Strip(s) == s
  {
    if s == "" {
      StripNothing();
    } else {
      hide First, Strip, CommentFree;
      StripStep(s);
      var l := First(s);
      var rest := s[|l.Text()|..];
      assert s == l.Text() + rest;
      assert StripLexeme(l).Text() == if l.Comment? then " " else l.Text();
      hide StripLexeme;
      StripShortens(rest);
    }
  }

  /** Stripping leaves a text as it is exactly when it has no comment. */
  lemma {:induction false} StripUnchangedIff(s: string)
    ensures Strip(s) == s <==> CommentFree(s)
  {
    StripShortens(s);
  }

  // --- Token by token ---

  /** A bare word has no comment exactly when none opens inside it. */
  lemma {:induction false} OpensInsideIff(t: string)
    requires forall c :: c in t ==> !IsDelimiter(c)
    ensures CommentFree(t) <==> forall i :: 0 <= i < |t| ==> !OpensComment(t[i..])
  {
    if t == "" {
      StripNothing();
    } else {
      StripStep(t);
      assert t[0] in t && t[0..] == t;
      if !OpensComment(t) {
        OpensInsideIff(t[1..]);
        assert forall i :: 1 <= i < |t| ==> t[i..] == t[1..][i - 1..];
        assert First(t).Text() == [t[0]];
      }
      hide CommentFree, Strip;
    }
  }

  /** What begins a bare word does not depend on what follows the word. */
  lemma {:induction false} BareFirst(t: string, r: string)
    requires t != "" && forall c :: c in t ==> !IsDelimiter(c)
    requires r == "" || IsDelimiter(r[0])
    ensures First(t + r).Comment? <==> OpensComment(t)
    ensures First(t).Comment? <==> OpensComment(t)
    ensures !OpensComment(t) ==> First(t + r) == First(t) == StripLexeme(First(t)) && First(t).Text() == [t[0]]
  {
    var s := t + r;
    assert t[0] in t && s[0] == t[0];
    assert |t| > 1 ==> s[1] == t[1];
    assert |t| == 1 && r != "" ==> s[1] == r[0];
  }

  lemma {:induction false} BareComments(t: string, r: string)
    requires forall c :: c in t ==> !IsDelimiter(c)
    requires r == "" || IsDelimiter(r[0])
    ensures CommentFree(t + r) <==> CommentFree(t) && CommentFree(r)
    ensures CommentFree(t) ==> Strip(t + r) == t + Strip(r)
  {
    var s := t + r;
    hide CommentFree, Strip, First, OpensComment, IsDelimiter;
    if t == "" {
      assert s == r && t + Strip(r) == Strip(r);
      StripNothing();
    } else {
      BareFirst(t, r);
      StripStep(s);
      StripStep(t);
      if !OpensComment(t) {
        BareComments(t[1..], r);
        assert s[1..] == t[1..] + r && t == [t[0]] + t[1..];
        ConcatAssoc([t[0]], t[1..], Strip(r));
      }
    }
  }

  /** A token and what may follow it have the comments of both. */
  lemma {:induction false} TokenComments(t: string, r: string)
    requires Token(t) && FitsToken(t, r) && MayFollow(t, r)
    ensures CommentFree(t + r) <==> CommentFree(t) && CommentFree(r)
    ensures CommentFree(t) ==> Strip(t + r) == t + Strip(r)
  {
    var s := t + r;
    assert t + "" == t && s[0] == t[0];
    if IsQuote(t[0]) || IsPunct(t[0]) {
      assert s[..|t|] == t && s[|t|..] == r && t[|t|..] == "";
      StripNothing();
      StripStep(s);
      StripStep(t);
      assert First(s) == First(t) && First(t).Text() == t && !First(t).Comment?;
    } else {
      BareChars(t);
      hide CommentFree, Strip;
      BareComments(t, r);
    }
  }

  lemma {:induction false} SpaceComments(rest: string)
    ensures CommentFree(" " + rest) <==> CommentFree(rest)
    ensures Strip(" " + rest) == " " + Strip(rest)
  {
    var s := " " + rest;
    StripStep(s);
    assert First(s) == Plain(' ') && s[1..] == rest;
  }

  lemma {:induction false} SeparatorComments(sep: string, rest: string)
    requires sep == "" || sep == " "
    ensures CommentFree(sep + rest) <==> CommentFree(rest)
    ensures Strip(sep + rest) == sep + Strip(rest)
  {
    hide CommentFree, Strip;
    if sep == "" {
      assert sep + rest == rest && sep + Strip(rest) == Strip(rest);
    } else {
      SpaceComments(rest);
    }
  }

  ghost predicate AllCommentFree(ts: seq<string>) {
    forall t :: t in ts ==> CommentFree(t)
  }

  lemma {:induction false} AllButFirst(ts: seq<string>)
    requires ts != []
    ensures AllCommentFree(ts) <==> CommentFree(ts[0]) && AllCommentFree(ts[1..])
  {
    hide CommentFree;
    assert ts == [ts[0]] + ts[1..];
  }

  lemma {:induction false} TailComments(prev: string, ts: seq<string>)
    requires ValidTokens([prev] + ts)
    ensures CommentFree(prev + Tail(prev, ts)) <==> CommentFree(prev) && AllCommentFree(ts)
    decreases |ts|
  {
    hide CommentFree, Token, Closed, FitsToken, MayFollow, ValidTokens;
    if ts == [] {
      assert prev + Tail(prev, ts) == prev;
    } else {
      hide AllCommentFree, Tail;
      NextTokens(prev, ts);
      AllButFirst(ts);
      TailComments(ts[0], ts[1..]);
      SeparatorComments(Separator(prev, ts[0]), ts[0] + Tail(ts[0], ts[1..]));
      TokenComments(prev, Tail(prev, ts));
    }
  }

  /** The first of several printed tokens, and what follows it. */
  lemma {:induction false} NextTokens(prev: string, ts: seq<string>)
    requires ValidTokens([prev] + ts) && ts != []
    ensures ValidTokens([ts[0]] + ts[1..]) && Token(prev) && Closed(prev) && Token(ts[0])
    ensures MayFollow(prev, Tail(prev, ts)) && FitsToken(prev, Tail(prev, ts))
    ensures Tail(prev, ts) == Separator(prev, ts[0]) + (ts[0] + Tail(ts[0], ts[1..]))
  {
    ConcatAssoc(Separator(prev, ts[0]), ts[0], Tail(ts[0], ts[1..]));
    assert ([prev] + ts)[0] == prev && ([prev] + ts)[1] == ts[0];
    assert forall i :: 0 <= i < |ts| ==> ts[i] == ([prev] + ts)[i + 1];
    assert [ts[0]] + ts[1..] == ts;
    PunctIsOneCharacter(prev);
    TailFollows(prev, ts);
    ClosedFits(prev, Tail(prev, ts));
  }

  /** Printed tokens have no comment exactly when none of them has one: no two of them open one
      together. */
  lemma {:induction false} RebuildComments(ts: seq<string>)
    requires ValidTokens(ts)
    ensures CommentFree(Rebuild(ts)) <==> AllCommentFree(ts)
  {
    if ts == [] {
      StripNothing();
    } else {
      assert [ts[0]] + ts[1..] == ts;
      hide CommentFree, AllCommentFree, ValidTokens;
      AllButFirst(ts);
      TailComments(ts[0], ts[1..]);
    }
  }

  // --- The rewritten block ---

  ghost predicate EntriesCommentFree(es: seq<Entry>) {
    forall e, t :: e in es && t in e ==> CommentFree(t)
  }

  /** No token of an entry that the rewrite keeps has a comment. */
  ghost predicate KeptCommentFree(options: string) {
    EntriesCommentFree(Kept(BlockEntries(options)))
  }

  lemma {:induction false} OwnTokens()
    ensures CommentFree("(") && CommentFree(")") && CommentFree(",") && CommentFree("READ_ONLY")
  {
    CodeWord("(");
    CodeWord(")");
    CodeWord(",");
    CodeWord("READ_ONLY");
  }

  lemma {:induction false} JoinHolds(es: seq<Entry>, e: Entry, t: string)
    requires e in es && t in e
    ensures t in JoinEntries(es)
  {
    if |es| > 1 && e != es[0] {
      JoinHolds(es[1..], e, t);
    }
  }

  lemma {:induction false} BlockComments(es: seq<Entry>)
    ensures AllCommentFree(BlockTokens(es)) <==> EntriesCommentFree(es)
  {
    OwnTokens();
    JoinTokens(es);
    hide CommentFree;
    if AllCommentFree(BlockTokens(es)) {
      forall e, t | e in es && t in e
        ensures CommentFree(t)
      {
        JoinHolds(es, e, t);
        assert t in BlockTokens(es);
      }
    }
  }

  lemma {:induction false} KeptAndFlag(es: seq<Entry>)
    ensures EntriesCommentFree(es + [["READ_ONLY"]]) <==> EntriesCommentFree(es)
  {
    OwnTokens();
    hide CommentFree;
  }

  lemma {:induction false} BlankOptions(options: string)
    requires Trim(options) == ""
    ensures KeptCommentFree(options) && CommentFree("(READ_ONLY)")
  {
    hide Lex, Trim;
    CodeWord("(READ_ONLY)");
    TokenizeEmpty();
    assert Entries([]) == [[]];
  }

  lemma {:induction false} RewriteComments(options: string)
    ensures CommentFree(EnforceReadOnly(options)) <==> KeptCommentFree(options)
  {
    hide CommentFree, EntriesCommentFree, AllCommentFree, Trim, Token, Closed, BlockTokens, Rebuild, BlockEntries, Kept;
    if Trim(options) == "" {
      BlankOptions(options);
    } else {
      var es := ReadOnlyEntries(options);
      var ts := BlockTokens(es);
      ReadOnlyTokens(options);
      BlockComments(es);
      assert forall i :: 0 <= i < |ts| ==> ts[i] in ts;
      RebuildComments(ts);
      KeptAndFlag(Kept(BlockEntries(options)));
    }
  }

  /** A reader that skips comments reads the rewritten block as it is exactly when no token of a
      kept entry has a comment. */
  lemma {:induction false} RewriteUnchangedIff(options: string)
    ensures Strip(EnforceReadOnly(options)) == EnforceReadOnly(options) <==> KeptCommentFree(options)
  {
    RewriteComments(options);
    StripUnchangedIff(EnforceReadOnly(options));
  }

  lemma {:induction false} CommentFreeBlock(options: string)
    requires BlockText(options) && Trim(options) == options && CommentFree(options)
    ensures KeptCommentFree(options)
  {
    var inner := Inner(Tokenize(options));
    if options == "" {
      TokenizeEmpty();
    } else {
      TokenizeValid(options);
      RebuildComments(Tokenize(options));
    }
    EntriesPlain([], inner);
    KeptPlain(BlockEntries(options));
    hide Tokenize, CommentFree;
  }

  // --- The printed statement ---

  lemma {:induction false} SpacedComments(words: seq<string>, rest: string)
    requires forall i :: 0 <= i < |words| ==> Closed(words[i])
    ensures CommentFree(Spaced(words, rest))
       <==> (forall i :: 0 <= i < |words| ==> CommentFree(words[i])) && CommentFree(rest)
    ensures (forall i :: 0 <= i < |words| ==> CommentFree(words[i])) ==>
              Strip(Spaced(words, rest)) == Spaced(words, Strip(rest))
  {
    hide CommentFree, Closed, Strip;
    if words != [] {
      var w, tail := words[0], Spaced(words[1..], rest);
      SpacedComments(words[1..], rest);
      SpacedToken(w);
      ClosedFits(w, " " + tail);
      TokenComments(w, " " + tail);
      SpaceComments(tail);
      assert forall i :: 1 <= i < |words| ==> words[i] == words[1..][i - 1];
    }
  }

  lemma {:induction false} SpacedToken(w: string)
    requires Closed(w)
    ensures Token(w) && forall rest :: MayFollow(w, " " + rest)
  {
    ClosedIfFollowed(w, " ");
  }

  lemma {:induction false} AliasComments(name: string, options: string)
    ensures CommentFree(QuoteIdentifier(name) + Suffix(options)) <==> CommentFree(options)
    ensures options != "" && Strip(options) != "" ==>
              Strip(QuoteIdentifier(name) + Suffix(options)) == QuoteIdentifier(name) + Suffix(Strip(options))
  {
    var alias := QuoteIdentifier(name);
    QuoteClosedToken(name, '"');
    StripNothing();
    assert CommentFree(alias) by {
      assert alias + "" == alias && alias[|alias|..] == "";
      StripStep(alias);
    }
    ClosedFits(alias, Suffix(options));
    hide CommentFree, Closed, Strip, FitsToken;
    TokenComments(alias, Suffix(options));
    SpaceComments(options);
  }

  lemma {:induction false} PrintedWordsComments(path: string)
    ensures |PrintedWords(path)| == 5
    ensures (forall i :: 0 <= i < 5 ==> CommentFree(PrintedWords(path)[i])) <==> CommentFree(path)
  {
    PlainWords();
    hide CommentFree;
    assert PrintedWords(path)[3] == path;
  }

  lemma {:induction false} PlainWords()
    ensures CommentFree("ATTACH") && CommentFree("OR") && CommentFree("REPLACE") && CommentFree("AS")
  {
    hide Lex;
    CodeWord("ATTACH");
    CodeWord("OR");
    CodeWord("REPLACE");
    CodeWord("AS");
  }

  lemma {:induction false} PrintComments(path: string, name: string, options: string)
    requires Closed(path)
    ensures CommentFree(Print(path, name, options)) <==> CommentFree(path) && CommentFree(options)
    ensures CommentFree(path) && options != "" && Strip(options) != "" ==>
              Strip(Print(path, name, options)) == Print(path, name, Strip(options))
  {
    PrintedWordsClosed(path);
    PrintedWordsComments(path);
    AliasComments(name, options);
    hide CommentFree, Closed, Strip, PrintedWords, Spaced;
    SpacedComments(PrintedWords(path), QuoteIdentifier(name) + Suffix(options));
  }

  /** The last tokens are the flag and the closing parenthesis. */
  predicate EndsReadOnly(ts: seq<string>) {
    |ts| >= 2 && ts[|ts| - 2] == "READ_ONLY" && ts[|ts| - 1] == ")"
  }

  lemma {:induction false} JoinEnds(es: seq<Entry>)
    ensures var ts := JoinEntries(es + [["READ_ONLY"]]); ts != [] && ts[|ts| - 1] == "READ_ONLY"
  {
    var all := es + [["READ_ONLY"]];
    if es != [] {
      assert all[1..] == es[1..] + [["READ_ONLY"]];
      JoinEnds(es[1..]);
    }
  }

  lemma {:induction false} RewriteEnds(options: string)
    ensures EndsReadOnly(Tokenize(EnforceReadOnly(options)))
  {
    EnforceTokens(options);
    hide Tokenize;
    JoinEnds(Kept(BlockEntries(options)));
  }

  lemma {:induction false} PrintedEnds(path: string, name: string, options: string)
    requires Closed(path)
    ensures EndsReadOnly(Tokenize(Print(path, name, EnforceReadOnly(options))))
  {
    TokenizePrint(path, name, EnforceReadOnly(options));
    RewriteEnds(options);
    hide Closed, Tokenize, Print;
  }

  /** A read-only normalised statement is the same for a reader that skips comments exactly when
      neither the path nor a token of a kept entry has a comment, and then it ends with the
      flag. */
  lemma {:induction false} FlagInForceIff(config: string, name: string)
    requires Normalize(config, name, true).Some? && Closed(ParseAttach(SingleStatement(config).value).value.path)
    ensures var p := ParseAttach(SingleStatement(config).value).value;
            var out := Normalize(config, name, true).value;
            && (Strip(out) == out <==> CommentFree(p.path) && KeptCommentFree(p.options))
            && (Strip(out) == out ==> EndsReadOnly(Tokenize(Strip(out))))
  {
    var p := ParseAttach(SingleStatement(config).value).value;
    var block := EnforceReadOnly(p.options);
    hide CommentFree, KeptCommentFree, Closed, Strip, Tokenize, Print, EnforceReadOnly, SingleStatement, ParseAttach,
         EndsReadOnly;
    StripUnchangedIff(Print(p.path, name, block));
    PrintComments(p.path, name, block);
    RewriteComments(p.options);
    PrintedEnds(p.path, name, p.options);
  }

  /** Options and a path without comments are enough. */
  lemma {:induction false} CommentFreeFlag(config: string, name: string)
    requires Normalize(config, name, true).Some? && Closed(ParseAttach(SingleStatement(config).value).value.path)
    requires var p := ParseAttach(SingleStatement(config).value).value; CommentFree(p.path) && CommentFree(p.options)
    ensures EndsReadOnly(Tokenize(Strip(Normalize(config, name, true).value)))
  {
    FlagInForceIff(config, name);
    SingleTrimmed(config);
    ParsedBlock(SingleStatement(config).value);
    CommentFreeBlock(ParseAttach(SingleStatement(config).value).value.options);
    hide CommentFree, KeptCommentFree, Closed, Strip, Tokenize, Normalize;
  }

  // --- A line comment in the block ---

  predicate NoNewline(s: string) {
    forall i :: 0 <= i < |s| ==> s[i] != '\n'
  }

  lemma {:induction false} LineToEnd(s: string)
    requires OpensLine(s) && NoNewline(s)
    ensures Strip(s) == " "
  {
    LineLengthAll(s[2..]);
    StripStep(s);
    StripNothing();
    assert s[..|s|] == s && s[|s|..] == "" && First(s) == Comment(s);
  }

  lemma {:induction false} LineLengthAll(s: string)
    requires NoNewline(s)
    ensures LineLength(s) == |s|
  {
    if s != "" {
      assert forall i :: 0 <= i < |s[1..]| ==> s[1..][i] == s[i + 1];
      LineLengthAll(s[1..]);
    }
  }

  lemma {:induction false} TailNoNewline(prev: string, ts: seq<string>)
    requires forall t :: t in ts ==> NoNewline(t)
    ensures NoNewline(Tail(prev, ts))
    decreases |ts|
  {
    if ts != [] {
      TailNoNewline(ts[0], ts[1..]);
      assert NoNewline(ts[0]);
    }
  }

  /** Token `k` is the first with a comment, which is a line comment, and no newline follows. */
  ghost predicate CommentedAt(ts: seq<string>, k: nat) {
    && k < |ts| && OpensLine(ts[k])
    && (forall i :: 0 <= i < k ==> CommentFree(ts[i]))
    && (forall i :: k <= i < |ts| ==> NoNewline(ts[i]))
  }

  lemma {:induction false} CommentedNext(ts: seq<string>, k: nat)
    requires CommentedAt(ts, k) && k > 0
    ensures CommentedAt(ts[1..], k - 1) && CommentFree(ts[0])
  {
    hide CommentFree, OpensLine, NoNewline;
    assert forall i :: 0 <= i < |ts| - 1 ==> ts[1..][i] == ts[i + 1];
  }

  /** The tokens before it are all that a reader sees that skips comments. */
  lemma {:induction false} SeenTokens(prev: string, ts: seq<string>, k: nat)
    requires ValidTokens([prev] + ts) && CommentFree(prev) && CommentedAt(ts, k)
    ensures Tokenize(Strip(prev + Tail(prev, ts))) == [prev] + ts[..k]
    ensures prev <= Strip(prev + Tail(prev, ts))
    decreases |ts|
  {
    CommentedBounds(ts, k);
    hide ValidTokens, CommentFree, Strip, Token, Closed, FitsToken, MayFollow, Tokenize, Tail, Separator, CommentedAt;
    var x := ts[0] + Tail(ts[0], ts[1..]);
    NextTokens(prev, ts);
    if k == 0 {
      HiddenLine(ts);
    } else {
      CommentedNext(ts, k);
      SeenTokens(ts[0], ts[1..], k - 1);
      assert [ts[0]] + ts[1..][..k - 1] == ts[..k];
    }
    SeenStep(prev, ts[0], x);
  }

  lemma {:induction false} CommentedBounds(ts: seq<string>, k: nat)
    requires CommentedAt(ts, k)
    ensures k < |ts|
  {
  }

  lemma {:induction false} SeenStep(prev: string, next: string, x: string)
    requires Token(prev) && Closed(prev) && CommentFree(prev) && Token(next)
    requires FitsToken(prev, Separator(prev, next) + x) && MayFollow(prev, Separator(prev, next) + x)
    requires next <= Strip(x) || Strip(x) == " "
    ensures var text := prev + (Separator(prev, next) + x);
            Tokenize(Strip(text)) == [prev] + Tokenize(Strip(x)) && prev <= Strip(text)
  {
    var sep := Separator(prev, next);
    hide CommentFree, Strip, Token, Closed, FitsToken, MayFollow, Tokenize;
    TokenComments(prev, sep + x);
    SeparatorComments(sep, x);
    SeenFirst(prev, sep, next, Strip(x));
  }

  lemma {:induction false} HiddenLine(ts: seq<string>)
    requires CommentedAt(ts, 0)
    ensures Strip(ts[0] + Tail(ts[0], ts[1..])) == " " && Tokenize(" ") == []
  {
    var d, post := ts[0], ts[1..];
    assert NoNewline(d);
    TailNoNewline(d, post);
    LineToEnd(d + Tail(d, post));
    TokenizeEmpty();
    assert " "[1..] == "";
  }

  lemma {:induction false} SeenFirst(prev: string, sep: string, next: string, seen: string)
    requires Token(prev) && Closed(prev) && Token(next) && sep == Separator(prev, next)
    requires next <= seen || seen == " "
    ensures Tokenize(prev + (sep + seen)) == [prev] + Tokenize(seen)
  {
    PunctIsOneCharacter(prev);
    assert sep + seen == "" || (sep + seen)[0] == ' ' || (sep == "" && (sep + seen)[0] == next[0]);
    ClosedFits(prev, sep + seen);
    TokenizeFirst(prev, sep + seen);
    TokenizeSeparated(sep, seen);
  }

  /** The rewritten block, for a reader that skips comments, when its token `k` opens a line
      comment: the flag, which comes last, is gone. */
  lemma {:induction false} FlagIsHidden(options: string, k: nat)
    requires Trim(options) != "" && k > 0 && CommentedAt(BlockTokens(ReadOnlyEntries(options)), k)
    ensures Tokenize(Strip(EnforceReadOnly(options))) == BlockTokens(ReadOnlyEntries(options))[..k]
  {
    var ts := BlockTokens(ReadOnlyEntries(options));
    ReadOnlyTokens(options);
    hide CommentFree, Token, Closed, NoNewline, OpensLine, Tokenize, Strip, Trim, ReadOnlyEntries, BlockTokens;
    assert forall i :: 0 <= i < |ts| ==> ts[i] in ts;
    assert [ts[0]] + ts[1..] == ts && [ts[0]] + ts[1..][..k - 1] == ts[..k];
    CommentedNext(ts, k);
    SeenTokens(ts[0], ts[1..], k - 1);
  }
}
