/**
 The tokenizer of the ATTACH parser (words, quoted strings with their quotes, and the
 punctuation `(`, `)`, `,`), the option-block printer, and quoting of single tokens.

 A token that stands on its own is one that the tokenizer gives back when it reads it alone.
 Only an unterminated quoted string cannot be followed by more text, and it can only be the
 last token there is. The printer puts one space between tokens, except before a comma or a
 closing parenthesis and after an opening one, so that tokenizing what it prints gives the
 tokens back.
 */
module Tokens {
  import opened Ascii
  import opened Sequences
  import opened Lexemes

  predicate IsPunct(c: char) {
    c == '(' || c == ')' || c == ','
  }

  predicate IsDelimiter(c: char) {
    IsWhitespace(c) || IsPunct(c) || IsQuote(c)
  }

  function BareLength(s: string): (n: nat)
    ensures n <= |s|
  {
    if s == "" || IsDelimiter(s[0]) then 0 else 1 + BareLength(s[1..])
  }

  predicate Starts(t: string) {
    t != "" && !IsWhitespace(t[0])
  }

  function TokenLength(s: string): (n: nat)
    requires Starts(s)
    ensures 0 < n <= |s|
  {
    if IsQuote(s[0]) then 1 + QuoteLength(s[1..], s[0])
    else if IsPunct(s[0]) then 1
    else BareLength(s)
  }

  function Tokenize(s: string): seq<string> {
    if s == "" then []
    else if IsWhitespace(s[0]) then Tokenize(s[1..])
    else [s[..TokenLength(s)]] + Tokenize(s[TokenLength(s)..])
  }

  // --- Tokens that stand on their own ---

  /** `t` is the first token of `t + rest`. */
  predicate FitsToken(t: string, rest: string) {
    Starts(t) && Starts(t + rest) && TokenLength(t + rest) == |t|
  }

  predicate Token(t: string) {
    FitsToken(t, "")
  }

  /** A token that more text may follow: anything but an unterminated quoted string. */
  predicate Closed(t: string) {
    FitsToken(t, " ")
  }

  lemma {:induction false} BareStable(t: string, r1: string, r2: string)
    requires BareLength(t + r1) == |t|
    requires r2 == "" || IsDelimiter(r2[0])
    ensures BareLength(t + r2) == |t|
  {
    if t == "" {
      assert t + r2 == r2;
    } else {
      assert (t + r1)[1..] == t[1..] + r1 && (t + r2)[1..] == t[1..] + r2;
      BareStable(t[1..], r1, r2);
    }
  }

  /** A quote that ends a token does not follow it. */
  predicate MayFollow(t: string, rest: string)
    requires t != ""
  {
    rest == "" || IsPunct(t[0]) || (IsDelimiter(rest[0]) && rest[0] != t[0])
  }

  lemma {:induction false} FitsTokenChange(t: string, r1: string, r2: string)
    requires FitsToken(t, r1) && MayFollow(t, r2) && (r1 == "" ==> r2 == "")
    ensures FitsToken(t, r2)
  {
    assert (t + r1)[0] == t[0] == (t + r2)[0];
    if IsQuote(t[0]) {
      assert (t + r1)[1..] == t[1..] + r1 && (t + r2)[1..] == t[1..] + r2;
      QuoteStable(t[1..], r1, r2, t[0]);
    } else if !IsPunct(t[0]) {
      BareStable(t, r1, r2);
    }
  }

  lemma {:induction false} ClosedFits(t: string, rest: string)
    requires Closed(t) && MayFollow(t, rest)
    ensures FitsToken(t, rest)
  {
    FitsTokenChange(t, " ", rest);
  }

  lemma {:induction false} ClosedIfFollowed(t: string, rest: string)
    requires FitsToken(t, rest)
    ensures Token(t)
    ensures rest != "" || !IsQuote(t[0]) ==> Closed(t)
  {
    FitsTokenChange(t, rest, "");
    if rest != "" {
      FitsTokenChange(t, rest, " ");
    } else if !IsQuote(t[0]) {
      assert (t + " ")[0] == t[0];
      if !IsPunct(t[0]) {
        BareStable(t, "", " ");
      }
    }
  }

  /** Tokens as the tokenizer yields them: only the last can be unterminated. */
  ghost predicate ValidTokens(ts: seq<string>) {
    forall i :: 0 <= i < |ts| ==> Token(ts[i]) && (i < |ts| - 1 ==> Closed(ts[i]))
  }

  lemma {:induction false} FirstToken(s: string)
    requires Starts(s)
    ensures var n := TokenLength(s);
            FitsToken(s[..n], s[n..]) && Tokenize(s) == [s[..n]] + Tokenize(s[n..])
  {
    var n := TokenLength(s);
    assert s == s[..n] + s[n..];
  }

  lemma {:induction false} TokenizeFirst(t: string, rest: string)
    requires FitsToken(t, rest)
    ensures Tokenize(t + rest) == [t] + Tokenize(rest)
  {
    assert (t + rest)[..|t|] == t && (t + rest)[|t|..] == rest;
  }

  lemma {:induction false} TokenizeValid(s: string)
    ensures ValidTokens(Tokenize(s))
  {
    if s == "" {
    } else if IsWhitespace(s[0]) {
      TokenizeValid(s[1..]);
    } else {
      var n := TokenLength(s);
      FirstToken(s);
      TokenizeValid(s[n..]);
      hide FitsToken, Tokenize;
      ClosedIfFollowed(s[..n], s[n..]);
      assert s[n..] == "" ==> Tokenize(s[n..]) == [] by {
        TokenizeEmpty();
      }
    }
  }

  lemma {:induction false} TokenizeEmpty()
    ensures Tokenize("") == []
  {
  }

  /** A word, then a space: the word is the first token. */
  lemma {:induction false} TokenizeSpaced(t: string, rest: string)
    requires Closed(t)
    ensures Tokenize(t + (" " + rest)) == [t] + Tokenize(rest)
  {
    assert t[0] != ' ' && (" " + rest)[1..] == rest;
    ClosedFits(t, " " + rest);
    TokenizeFirst(t, " " + rest);
  }

  // --- The option-block printer ---

  /** What separates `tok` from the token before it. */
  function Separator(prev: string, tok: string): string {
    if tok == ")" || tok == "," || prev == "(" then "" else " "
  }

  function Tail(prev: string, ts: seq<string>): string
    decreases |ts|
  {
    if ts == [] then "" else Separator(prev, ts[0]) + ts[0] + Tail(ts[0], ts[1..])
  }

  lemma {:induction false} LongTail(prev: string, ts: seq<string>)
    requires ts != []
    ensures Tail(prev, ts) == Separator(prev, ts[0]) + ts[0] + Tail(ts[0], ts[1..])
  {
  }

  function Rebuild(ts: seq<string>): string {
    if ts == [] then "" else ts[0] + Tail(ts[0], ts[1..])
  }

  lemma {:induction false} TailFollows(prev: string, ts: seq<string>)
    requires prev != "" && (IsPunct(prev[0]) ==> |prev| == 1)
    requires ts != [] && Token(ts[0])
    ensures prev != "(" ==> Tail(prev, ts)[0] in {' ', ')', ','}
    ensures MayFollow(prev, Tail(prev, ts)) || IsWhitespace(prev[0])
  {
  }

  lemma {:induction false} TokenizeTail(prev: string, ts: seq<string>)
    requires ValidTokens([prev] + ts)
    ensures Tokenize(prev + Tail(prev, ts)) == [prev] + ts
    decreases |ts|
  {
    assert ([prev] + ts)[0] == prev;
    if ts == [] {
      TokenizeFirst(prev, "");
      assert prev + Tail(prev, ts) == prev + "";
    } else {
      var rest := ts[1..];
      assert ([prev] + ts)[1] == ts[0];
      assert forall i :: 0 <= i < |ts| ==> ts[i] == ([prev] + ts)[i + 1];
      assert [ts[0]] + rest == ts;
      TokenizeTail(ts[0], rest);
      PunctIsOneCharacter(prev);
      TailFollows(prev, ts);
      ClosedFits(prev, Tail(prev, ts));
      TokenizeFirst(prev, Tail(prev, ts));
      TokenizeSeparated(Separator(prev, ts[0]), ts[0] + Tail(ts[0], rest));
      ConcatAssoc(Separator(prev, ts[0]), ts[0], Tail(ts[0], rest));
    }
  }

  lemma {:induction false} PunctIsOneCharacter(t: string)
    requires Token(t)
    ensures IsPunct(t[0]) ==> |t| == 1
  {
    assert t + "" == t;
  }

  lemma {:induction false} TokenizeSeparated(sep: string, rest: string)
    requires sep == "" || sep == " "
    ensures Tokenize(sep + rest) == Tokenize(rest)
  {
    assert sep + rest == if sep == "" then rest else " " + rest;
    assert (" " + rest)[1..] == rest;
  }

  /** Tokenizing undoes the printer. */
  lemma {:induction false} TokenizeRebuild(ts: seq<string>)
    requires ValidTokens(ts)
    ensures Tokenize(Rebuild(ts)) == ts
  {
    if ts != [] {
      assert [ts[0]] + ts[1..] == ts;
      TokenizeTail(ts[0], ts[1..]);
    }
  }

  // --- Quoting one token ---

  function Double(s: string, q: char): string {
    if s == "" then "" else (if s[0] == q then [q, q] else [s[0]]) + Double(s[1..], q)
  }

  function Quote(s: string, q: char): string {
    [q] + Double(s, q) + [q]
  }

  function QuoteIdentifier(name: string): string {
    Quote(name, '"')
  }

  /** Left-to-right replacement of each doubled quote by one quote. */
  function Collapse(s: string, q: char): string {
    if s == "" then ""
    else if |s| > 1 && s[0] == q && s[1] == q then [q] + Collapse(s[2..], q)
    else [s[0]] + Collapse(s[1..], q)
  }

  function Unquote(token: string): string {
    if |token| >= 2 && IsQuote(token[0]) && token[|token| - 1] == token[0]
    then Collapse(token[1..|token| - 1], token[0])
    else token
  }

  lemma {:induction false} CollapseDouble(s: string, q: char)
    ensures Collapse(Double(s, q), q) == s
  {
    if s != "" {
      CollapseDouble(s[1..], q);
      var d := Double(s, q);
      if s[0] == q {
        assert d[2..] == Double(s[1..], q);
      } else {
        assert d[1..] == Double(s[1..], q);
      }
    }
  }

  /** Unquoting undoes quoting, whatever the text holds. */
  lemma {:induction false} UnquoteQuote(s: string, q: char)
    requires IsQuote(q)
    ensures Unquote(Quote(s, q)) == s
  {
    CollapseDouble(s, q);
    assert Quote(s, q)[1..|Quote(s, q)| - 1] == Double(s, q);
  }

  lemma {:induction false} QuoteLengthDouble(s: string, q: char, rest: string)
    requires rest == "" || rest[0] != q
    ensures QuoteLength(Double(s, q) + ([q] + rest), q) == |Double(s, q)| + 1
  {
    var d := Double(s, q) + ([q] + rest);
    if s == "" {
      assert d == [q] + rest;
    } else {
      QuoteLengthDouble(s[1..], q, rest);
      if s[0] == q {
        assert d[2..] == Double(s[1..], q) + ([q] + rest);
      } else {
        assert d[1..] == Double(s[1..], q) + ([q] + rest);
      }
    }
  }

  /** A quoted text is one closed token: nothing in it can end the quotes early. */
  lemma {:induction false} QuoteClosedToken(s: string, q: char)
    requires IsQuote(q)
    ensures Closed(Quote(s, q)) && Token(Quote(s, q))
  {
    var t := Quote(s, q);
    assert (t + " ")[1..] == Double(s, q) + ([q] + " ");
    QuoteLengthDouble(s, q, " ");
    ClosedIfFollowed(t, " ");
  }
}
