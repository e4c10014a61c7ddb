/** The loops of the ATTACH normaliser, each proved to compute its specification. */
module AttachScanners {
  import opened Ascii
  import opened Sequences
  import opened Lexemes
  import opened Statements
  import opened Wrappers
  import opened Scanners
  import opened Tokens
  import opened Options
  import opened Attach
  import opened DataPaths

  // --- The tokenizer ---

  /** `tokens` are the tokens of everything before index `i`. */
  ghost predicate Tokenizing(s: string, i: nat, tokens: seq<string>) {
    i <= |s| && tokens + Tokenize(s[i..]) == Tokenize(s)
  }

  lemma {:induction false} TokenizingStart(s: string)
    ensures Tokenizing(s, 0, [])
  {
    assert s[0..] == s;
  }

  lemma {:induction false} TokenizingEnd(s: string, tokens: seq<string>)
    requires Tokenizing(s, |s|, tokens)
    ensures tokens == Tokenize(s)
  {
    assert s[|s|..] == "";
  }

  lemma {:induction false} TokenizingSpace(s: string, i: nat, tokens: seq<string>)
    requires Tokenizing(s, i, tokens) && i < |s| && IsWhitespace(s[i])
    ensures Tokenizing(s, i + 1, tokens)
  {
    assert s[i..][1..] == s[i + 1..];
  }

  lemma {:induction false} TokenizingToken(s: string, i: nat, e: nat, tokens: seq<string>)
    requires Tokenizing(s, i, tokens) && i < |s| && !IsWhitespace(s[i])
    requires e == i + TokenLength(s[i..])
    ensures Tokenizing(s, e, tokens + [s[i..e]])
  {
    assert s[i..][..e - i] == s[i..e] && s[i..][e - i..] == s[e..];
    ConcatAssoc(tokens, [s[i..e]], Tokenize(s[e..]));
  }

  lemma {:induction false} BareStep(s: string, i: nat)
    requires i < |s| && !IsDelimiter(s[i])
    ensures i + BareLength(s[i..]) == i + 1 + BareLength(s[i + 1..])
  {
    assert s[i..][1..] == s[i + 1..];
  }

  /** Words, quoted strings with their quotes, and the punctuation `(`, `)`, `,`. */
  method TokenizeText(sql: string) returns (tokens: seq<string>)
    ensures tokens == Tokenize(sql)
  {
    hide Tokenize, QuoteLength, BareLength;
    tokens := [];
    var i, n := 0, |sql|;
    TokenizingStart(sql);
    while i < n
      invariant Tokenizing(sql, i, tokens)
      decreases n - i
    {
      var ch := sql[i];
      if IsWhitespace(ch) {
        TokenizingSpace(sql, i, tokens);
        i := i + 1;
        continue;
      }
      ghost var before := tokens;
      var start := i;
      SliceFacts(sql, start);
      if IsQuote(ch) {
        var tok;
        i, tok := TakeQuoted(sql, i, "");
        tokens := tokens + [tok];
        assert tok == sql[start..i];
      } else if IsPunct(ch) {
        tokens := tokens + [[ch]];
        i := i + 1;
        assert [ch] == sql[start..i];
      } else {
        while i < n && !IsDelimiter(sql[i])
          invariant start <= i <= n
          invariant i + BareLength(sql[i..]) == start + BareLength(sql[start..])
        {
          BareStep(sql, i);
          i := i + 1;
        }
        BareStops(sql, i);
        tokens := tokens + [sql[start..i]];
      }
      TokenizingToken(sql, start, i, before);
    }
    TokenizingEnd(sql, tokens);
  }

  lemma {:induction false} BareStops(s: string, i: nat)
    requires i <= |s| && (i < |s| ==> IsDelimiter(s[i]))
    ensures BareLength(s[i..]) == 0
  {
  }

  // --- The option-block printer ---

  /** `out` prints the first `i` tokens. */
  ghost predicate Rebuilding(tokens: seq<string>, i: nat, out: string) {
    && i <= |tokens|
    && (i == 0 ==> out == "")
    && (i > 0 ==> out + Tail(tokens[i - 1], tokens[i..]) == Rebuild(tokens))
  }

  lemma {:induction false} RebuildingFirst(tokens: seq<string>)
    requires tokens != []
    ensures Rebuilding(tokens, 1, tokens[0])
  {
  }

  lemma {:induction false} RebuildingStep(tokens: seq<string>, i: nat, out: string)
    requires Rebuilding(tokens, i, out) && 0 < i < |tokens|
    ensures Rebuilding(tokens, i + 1, out + Separator(tokens[i - 1], tokens[i]) + tokens[i])
  {
    var sep, tok, rest := Separator(tokens[i - 1], tokens[i]), tokens[i], Tail(tokens[i], tokens[i + 1..]);
    assert tokens[i..][1..] == tokens[i + 1..] && tokens[i..][0] == tok;
    assert Tail(tokens[i - 1], tokens[i..]) == sep + tok + rest;
    hide Tail, Separator;
    assert out + (sep + tok + rest) == out + sep + tok + rest;
  }

  lemma {:induction false} RebuildingEnd(tokens: seq<string>, out: string)
    requires Rebuilding(tokens, |tokens|, out)
    ensures out == Rebuild(tokens)
  {
    assert tokens[|tokens|..] == [];
  }

  /** Join tokens with single spaces except around parentheses and before commas. */
  method RebuildOptions(tokens: seq<string>) returns (out: string)
    ensures out == Rebuild(tokens)
  {
    out := "";
    for i := 0 to |tokens|
      invariant Rebuilding(tokens, i, out)
    {
      ghost var before := out;
      var tok := tokens[i];
      if i == 0 {
        RebuildingFirst(tokens);
        out := out + tok;
        continue;
      }
      RebuildingStep(tokens, i, out);
      hide Rebuilding;
      if tok != ")" && tok != "," && tokens[i - 1] != "(" {
        out := out + " ";
      }
      out := out + tok;
      assert out == before + Separator(tokens[i - 1], tok) + tok;
    }
    RebuildingEnd(tokens, out);
  }

  // --- The READ_ONLY rewrite ---

  /** Split the tokens between the parentheses into entries at the commas. */
  method CollectEntries(inner: seq<string>) returns (entries: seq<Entry>)
    ensures entries == Entries(inner)
  {
    entries := [[]];
    for i := 0 to |inner|
      invariant entries != []
      invariant entries[..|entries| - 1] + EntriesFrom(entries[|entries| - 1], inner[i..]) == Entries(inner)
    {
      assert inner[i..][1..] == inner[i + 1..];
      var last := entries[|entries| - 1];
      ghost var init := entries[..|entries| - 1];
      if inner[i] == "," {
        entries := entries + [[]];
        ConcatAssoc(init, [last], EntriesFrom([], inner[i + 1..]));
        assert entries[..|entries| - 1] == init + [last];
      } else {
        entries := entries[|entries| - 1 := last + [inner[i]]];
      }
    }
    assert inner[|inner|..] == [];
  }

  lemma {:induction false} KeptStep(es: seq<Entry>, i: nat)
    requires i < |es|
    ensures Kept(es[i..]) == (if es[i] == [] || IsReadOnly(es[i]) then [] else [es[i]]) + Kept(es[i + 1..])
  {
    assert es[i..][1..] == es[i + 1..];
  }

  /** Keep the entries that are neither empty nor a READ_ONLY setting. */
  method RetainEntries(entries: seq<Entry>) returns (kept: seq<Entry>)
    ensures kept == Kept(entries)
  {
    kept := [];
    for i := 0 to |entries|
      invariant kept + Kept(entries[i..]) == Kept(entries)
    {
      KeptStep(entries, i);
      if entries[i] != [] && !EqIgnoreCase(entries[i][0], "READ_ONLY") {
        ConcatAssoc(kept, [entries[i]], Kept(entries[i + 1..]));
        kept := kept + [entries[i]];
      }
    }
  }

  lemma {:induction false} JoinAppend(es: seq<Entry>, e: Entry)
    requires es != []
    ensures JoinEntries(es + [e]) == JoinEntries(es) + [","] + e
  {
    if |es| == 1 {
      assert (es + [e])[1..] == [e];
    } else {
      JoinAppend(es[1..], e);
      assert (es + [e])[1..] == es[1..] + [e];
    }
  }

  /** The tokens of a block with these entries. */
  method PrintBlock(entries: seq<Entry>) returns (output: seq<string>)
    ensures output == BlockTokens(entries)
  {
    output := ["("];
    for i := 0 to |entries|
      invariant output == ["("] + JoinEntries(entries[..i])
    {
      assert entries[..i + 1] == entries[..i] + [entries[i]];
      if i > 0 {
        JoinAppend(entries[..i], entries[i]);
        output := output + [","];
      }
      output := output + entries[i];
    }
    assert entries[..|entries|] == entries;
    output := output + [")"];
  }

  /** Replace any existing `READ_ONLY [value]` entry and append the bare flag. */
  method EnforceReadOnlyOptions(options: string) returns (out: string)
    ensures out == EnforceReadOnly(options)
  {
    var trimmed := Trim(options);
    if trimmed == "" {
      return "(READ_ONLY)";
    }
    var tokens := TokenizeText(trimmed);
    var inner := if |tokens| >= 2 then tokens[1..|tokens| - 1] else [];
    var entries := CollectEntries(inner);
    entries := RetainEntries(entries);
    var output := PrintBlock(entries + [["READ_ONLY"]]);
    out := RebuildOptions(output);
  }

  // --- The data path ---

  /** The data root an ATTACH statement grants read access to. */
  method AttachDataPath(statement: string) returns (path: Option<string>)
    ensures path == DataPath(statement)
  {
    var statementTokens := TokenizeText(statement);
    var parsed := ParseTokens(statementTokens);
    if parsed.None? {
      return None;
    }
    var tokens := TokenizeText(parsed.value.options);
    var i := 0;
    assert tokens[0..] == tokens;
    while i + 1 < |tokens|
      invariant i <= |tokens|
      invariant DataPathIn(tokens[i..]) == DataPathIn(tokens)
    {
      assert tokens[i..][1..] == tokens[i + 1..];
      if EqIgnoreCase(tokens[i], "DATA_PATH") {
        return Some(Unquote(tokens[i + 1]));
      }
      i := i + 1;
    }
    return None;
  }

  // --- The normaliser ---

  method NonBlankStatements(pieces: seq<string>) returns (kept: seq<string>)
    ensures kept == NonBlank(pieces)
  {
    kept := [];
    for i := 0 to |pieces|
      invariant kept + NonBlank(pieces[i..]) == NonBlank(pieces)
    {
      assert pieces[i..][1..] == pieces[i + 1..];
      if Trim(pieces[i]) != "" {
        ConcatAssoc(kept, [pieces[i]], NonBlank(pieces[i + 1..]));
        kept := kept + [pieces[i]];
      }
    }
  }

  /** Rewrite one ATTACH statement to `ATTACH OR REPLACE <path> AS "<name>"[ (options)]`. */
  method NormalizeAttach(secretConfig: string, name: string, readOnly: bool) returns (sql: Option<string>)
    ensures sql == Normalize(secretConfig, name, readOnly)
  {
    hide Split, Tokenize, Keyword, Trim, NonBlank, Rebuild, Print, EnforceReadOnly;
    var pieces := SplitTopLevelStatements(secretConfig);
    var statements := NonBlankStatements(pieces);
    if |statements| != 1 {
      return None;
    }
    var statement := Trim(statements[0]);
    var keyword := LeadingKeyword(statement);
    if keyword != Some("ATTACH") {
      return None;
    }
    var tokens := TokenizeText(statement);
    var parsed := ParseTokens(tokens);
    if parsed.None? {
      return None;
    }
    var options := Trim(parsed.value.options);
    if readOnly {
      options := EnforceReadOnlyOptions(parsed.value.options);
    }
    return Some(Print(parsed.value.path, name, options));
  }
}
