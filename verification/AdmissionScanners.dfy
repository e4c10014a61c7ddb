/** The loops of statement admission, each proved to compute its specification. */
module AdmissionScanners {
  import opened Ascii
  import opened Sequences
  import opened Lexemes
  import opened Statements
  import opened Wrappers
  import opened Scanners
  import opened Tokens
  import opened AttachScanners
  import opened Admission

  // --- The scanner ---

  ghost predicate Scanning(s: string, i: nat, tokens: seq<Scanned>) {
    i <= |s| && tokens + Scan(s[i..]) == Scan(s)
  }

  lemma {:induction false} ScanningStart(s: string)
    ensures Scanning(s, 0, [])
  {
    assert s[0..] == s;
  }

  lemma {:induction false} ScanningEnd(s: string, tokens: seq<Scanned>)
    requires Scanning(s, |s|, tokens)
    ensures tokens == Scan(s)
  {
    assert s[|s|..] == "";
  }

  lemma {:induction false} ScanningSpace(s: string, i: nat, tokens: seq<Scanned>)
    requires Scanning(s, i, tokens) && i < |s| && IsWhitespace(s[i])
    ensures Scanning(s, i + 1, tokens)
  {
    assert s[i..][1..] == s[i + 1..];
  }

  lemma {:induction false} ScanningQuoted(s: string, i: nat, e: nat, tokens: seq<Scanned>)
    requires Scanning(s, i, tokens) && i < |s| && IsQuote(s[i])
    requires e == i + 1 + QuoteLength(s[i + 1..], s[i])
    ensures Scanning(s, e, tokens + [QuotedToken(s[i], QuoteContent(s[i + 1..], s[i]))])
  {
    assert s[i..][1..] == s[i + 1..] && s[i..][e - i..] == s[e..];
    ConcatAssoc(tokens, [QuotedToken(s[i], QuoteContent(s[i + 1..], s[i]))], Scan(s[e..]));
  }

  lemma {:induction false} ScanningWord(s: string, i: nat, e: nat, tokens: seq<Scanned>)
    requires Scanning(s, i, tokens) && i < |s| && (IsAlphanumeric(s[i]) || s[i] == '_')
    requires e == i + WordLength(s[i..])
    ensures Scanning(s, e, tokens + [Word(s[i..e], false)])
  {
    assert s[i..][..e - i] == s[i..e] && s[i..][e - i..] == s[e..];
    ConcatAssoc(tokens, [Word(s[i..e], false)], Scan(s[e..]));
  }

  lemma {:induction false} ScanningPunct(s: string, i: nat, tokens: seq<Scanned>)
    requires Scanning(s, i, tokens) && i < |s|
    requires !IsWhitespace(s[i]) && !IsQuote(s[i]) && !IsAlphanumeric(s[i]) && s[i] != '_'
    ensures Scanning(s, i + 1, tokens + [Punct(s[i])])
  {
    assert s[i..][1..] == s[i + 1..];
    ConcatAssoc(tokens, [Punct(s[i])], Scan(s[i + 1..]));
  }

  lemma {:induction false} ContentStep(s: string, i: nat, q: char)
    requires i < |s|
    ensures QuoteContent(s[i..], q) ==
            if s[i] != q then [s[i]] + QuoteContent(s[i + 1..], q)
            else if i + 1 < |s| && s[i + 1] == q then [q] + QuoteContent(s[i + 2..], q)
            else ""
  {
    assert s[i..][1..] == s[i + 1..];
    if i + 1 < |s| {
      assert s[i..][2..] == s[i + 2..];
    }
  }

  lemma {:induction false} ContentAtEnd(s: string, q: char)
    ensures QuoteContent(s[|s|..], q) == ""
  {
  }

  /** Read the quoted token that starts at `start`: its contents, with doubled quotes halved. */
  method ReadQuoted(s: string, start: nat) returns (i: nat, text: string)
    requires start < |s| && IsQuote(s[start])
    ensures i == start + 1 + QuoteLength(s[start + 1..], s[start])
    ensures text == QuoteContent(s[start + 1..], s[start])
  {
    hide QuoteLength, QuoteContent;
    var ch := s[start];
    text := "";
    i := start + 1;
    ghost var content := QuoteContent(s[start + 1..], ch);
    while i < |s|
      invariant start < i <= |s|
      invariant i + QuoteLength(s[i..], ch) == start + 1 + QuoteLength(s[start + 1..], ch)
      invariant text + QuoteContent(s[i..], ch) == content
    {
      QuoteStep(s, i, ch);
      ContentStep(s, i, ch);
      if s[i] == ch {
        if i + 1 < |s| && s[i + 1] == ch {
          ConcatAssoc(text, [ch], QuoteContent(s[i + 2..], ch));
          text := text + [ch];
          i := i + 2;
          continue;
        }
        i := i + 1;
        return;
      }
      ConcatAssoc(text, [s[i]], QuoteContent(s[i + 1..], ch));
      text := text + [s[i]];
      i := i + 1;
    }
    ContentAtEnd(s, ch);
    QuoteAtEnd(s, ch);
  }

  lemma {:induction false} QuoteAtEnd(s: string, q: char)
    ensures QuoteLength(s[|s|..], q) == 0
  {
  }

  lemma {:induction false} WordStep(s: string, i: nat)
    requires i <= |s|
    ensures i + WordLength(s[i..]) == if i < |s| && WordChar(s[i]) then i + 1 + WordLength(s[i + 1..]) else i
  {
    if i < |s| {
      assert s[i..][1..] == s[i + 1..];
    }
  }

  /** Split comment-free SQL into words, quoted identifiers, literals and punctuation. */
  method ScanText(s: string) returns (tokens: seq<Scanned>)
    ensures tokens == Scan(s)
  {
    hide Scan, QuoteLength, QuoteContent, WordLength;
    tokens := [];
    var i := 0;
    ScanningStart(s);
    while i < |s|
      invariant Scanning(s, i, tokens)
      decreases |s| - i
    {
      ghost var before := tokens;
      var start, ch := i, s[i];
      if IsWhitespace(ch) {
        ScanningSpace(s, i, tokens);
        i := i + 1;
      } else if IsQuote(ch) {
        var text;
        i, text := ReadQuoted(s, i);
        tokens := tokens + [if ch == '"' then Word(text, true) else Literal(text)];
        ScanningQuoted(s, start, i, before);
      } else if IsAlphanumeric(ch) || ch == '_' {
        while i < |s| && WordChar(s[i])
          invariant start <= i <= |s|
          invariant i + WordLength(s[i..]) == start + WordLength(s[start..])
        {
          WordStep(s, i);
          i := i + 1;
        }
        WordStep(s, i);
        WordStep(s, start);
        tokens := tokens + [Word(s[start..i], false)];
        ScanningWord(s, start, i, before);
      } else {
        tokens := tokens + [Punct(ch)];
        i := i + 1;
        ScanningPunct(s, start, before);
      }
    }
    ScanningEnd(s, tokens);
  }

  // --- Refusals ---

  /** Why admission refuses a statement beyond its leading keyword. */
  method RefusedConstruct(statement: string, writer: bool) returns (refusal: Option<Refusal>)
    ensures refusal == Refused(statement, writer)
  {
    hide Strip, Scan, Lower, CreateRefusal, TokenRefusal;
    var stripped := StripComments(statement);
    var tokens := ScanText(stripped);
    for i := 0 to |tokens|
      invariant forall j :: 0 <= j < i ==> !NamesReserved(tokens[j])
    {
      if NamesReserved(tokens[i]) {
        return Some(ReservedName);
      }
    }
    if writer {
      return None;
    }
    var create := CreateRefusal(tokens);
    if create.Some? {
      return create;
    }
    for i := 0 to |tokens|
      invariant FirstRefusal(tokens, i) == FirstRefusal(tokens, 0)
    {
      var found := TokenRefusal(tokens, i);
      if found.Some? {
        return found;
      }
    }
    return None;
  }

  // --- The classifiers ---

  lemma {:induction false} CallNameStep(ts: seq<string>, i: nat)
    requires i < |ts|
    ensures CallName(ts[i..]) == if ts[i] == "(" then "" else Lower(Unquote(ts[i])) + CallName(ts[i + 1..])
  {
    assert ts[i..][1..] == ts[i + 1..];
  }

  /** Whether a CALL statement invokes a `ducklake_*` function under any qualification or quoting. */
  method CallTargets(statement: string) returns (targets: bool)
    ensures targets == CallTargetsDucklake(Strip(statement))
  {
    hide Strip, Tokenize, Lower, Unquote, AfterLastDot;
    var stripped := StripComments(statement);
    var tokens := TokenizeText(stripped);
    if |tokens| == 0 || !EqIgnoreCase(tokens[0], "CALL") {
      return false;
    }
    var name := "";
    var i := 1;
    while i < |tokens| && tokens[i] != "("
      invariant 1 <= i <= |tokens|
      invariant name + CallName(tokens[i..]) == CallName(tokens[1..])
    {
      CallNameStep(tokens, i);
      ConcatAssoc(name, Lower(Unquote(tokens[i])), CallName(tokens[i + 1..]));
      name := name + Lower(Unquote(tokens[i]));
      i := i + 1;
    }
    if i < |tokens| {
      CallNameStep(tokens, i);
    }
    assert name + CallName(tokens[i..]) == name;
    return "ducklake_" <= AfterLastDot(name);
  }

  lemma {:induction false} CopySinkStep(ts: seq<string>, i: nat, depth: int)
    requires i < |ts|
    ensures CopySink(ts[i..], depth) ==
            if ts[i] == "(" then CopySink(ts[i + 1..], depth + 1)
            else if ts[i] == ")" then CopySink(ts[i + 1..], depth - 1)
            else if depth == 0 && EqIgnoreCase(ts[i], "TO") then true
            else if depth == 0 && EqIgnoreCase(ts[i], "FROM") then false
            else CopySink(ts[i + 1..], depth)
  {
    assert ts[i..][1..] == ts[i + 1..];
  }

  /** Whether the first top-level TO or FROM of a COPY makes it a file write. */
  method CopyWrites(statement: string) returns (writes: bool)
    ensures writes == CopyWritesFile(Strip(statement))
  {
    hide Strip, Tokenize, EqIgnoreCase;
    var stripped := StripComments(statement);
    var tokens := TokenizeText(stripped);
    if |tokens| == 0 || !EqIgnoreCase(tokens[0], "COPY") {
      return false;
    }
    var depth := 0;
    for i := 1 to |tokens|
      invariant CopySink(tokens[i..], depth) == CopySink(tokens[1..], 0)
    {
      CopySinkStep(tokens, i, depth);
      var token := tokens[i];
      if token == "(" {
        depth := depth + 1;
      } else if token == ")" {
        depth := depth - 1;
      } else if depth == 0 {
        if EqIgnoreCase(token, "TO") {
          return true;
        }
        if EqIgnoreCase(token, "FROM") {
          return false;
        }
      }
    }
    return true;
  }

  // --- Admission ---

  /** The verdict on one top-level statement. */
  method DenyStatement(statement: string, writer: bool) returns (denial: Option<Denial>)
    ensures denial == Deny(statement, writer)
  {
    hide Strip, Keyword, CreatesPersistentSecret, CallTargetsDucklake, CopyWritesFile, Refused;
    var keyword := LeadingKeyword(statement);
    if keyword.None? {
      return None;
    }
    if keyword.value == "ATTACH" {
      return Some(AttachNotPermitted);
    }
    if keyword.value == "CREATE" {
      var stripped := StripComments(statement);
      if CreatesPersistentSecret(stripped) {
        return Some(PersistentSecretNotPermitted);
      }
    }
    if !writer {
      if keyword.value == "EXPORT" {
        return Some(WriteNotPermitted("EXPORT DATABASE"));
      }
      if keyword.value == "CALL" {
        var targets := CallTargets(statement);
        if targets {
          return Some(WriteNotPermitted("CALL ducklake_*"));
        }
      }
      if keyword.value == "COPY" {
        var writes := CopyWrites(statement);
        if writes {
          return Some(WriteNotPermitted("COPY to a file"));
        }
      }
    }
    var refusal := RefusedConstruct(statement, writer);
    match refusal {
      case Some(ReservedName) => return Some(ReservedNameNotPermitted);
      case Some(NonWriter(what)) => return Some(WriteNotPermitted(what));
      case None => return None;
    }
  }

  /** Check every top-level statement; the first refusal is the verdict. */
  method ValidateSql(sql: string, writer: bool) returns (denial: Option<Denial>)
    ensures denial == ValidateUserSql(sql, writer)
  {
    hide Split, Deny;
    var pieces := SplitTopLevelStatements(sql);
    assert pieces[0..] == pieces;
    for i := 0 to |pieces|
      invariant DenyFirst(pieces[i..], writer) == DenyFirst(pieces, writer)
    {
      assert pieces[i..][1..] == pieces[i + 1..];
      denial := DenyStatement(pieces[i], writer);
      if denial.Some? {
        return;
      }
    }
    return None;
  }
}
