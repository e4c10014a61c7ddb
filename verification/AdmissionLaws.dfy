/** What statement admission guarantees, said without the classifiers it uses. */
module AdmissionLaws {
  import opened Ascii
  import opened Lexemes
  import opened Statements
  import opened Wrappers
  import opened Tokens
  import opened Keywords
  import opened Admission

  // --- Statements that write outside ---

  /** How often a token stands in a list. */
  function Count(ts: seq<string>, t: string): nat {
    if ts == [] then 0 else (if ts[0] == t then 1 else 0) + Count(ts[1..], t)
  }

  /** Opening less closing parentheses before place `i`. */
  function Depth(ts: seq<string>, i: nat): int
    requires i <= |ts|
  {
    Count(ts[..i], "(") - Count(ts[..i], ")")
  }

  /** The keyword at place `i`, with `depth` more parentheses opened than closed before. */
  predicate At(ts: seq<string>, i: int, depth: int, keyword: string) {
    0 <= i < |ts| && Depth(ts, i) == depth && EqIgnoreCase(ts[i], keyword)
  }

  /** A FROM outside parentheses that no TO outside parentheses precedes. */
  ghost predicate Loads(ts: seq<string>, depth: int) {
    exists i :: At(ts, i, depth, "FROM") && forall j :: 0 <= j < i ==> !At(ts, j, depth, "TO")
  }

  /** A COPY into a file: no FROM comes first. */
  ghost predicate CopyToFile(ts: seq<string>) {
    ts != [] && EqIgnoreCase(ts[0], "COPY") && !Loads(ts[1..], 0)
  }

  lemma {:induction false} DepthCons(t: string, ts: seq<string>, i: nat)
    requires i <= |ts|
    ensures Depth([t] + ts, i + 1) == Depth(ts, i) + if t == "(" then 1 else if t == ")" then -1 else 0
  {
    assert ([t] + ts)[..i + 1] == [t] + ts[..i];
    assert ([t] + ts[..i])[1..] == ts[..i];
  }

  /** What the first token leaves to the others. */
  lemma {:induction false} LoadsCons(t: string, ts: seq<string>, depth: int)
    ensures Loads([t] + ts, depth)
       <==> if depth == 0 && EqIgnoreCase(t, "TO") then false
            else if depth == 0 && EqIgnoreCase(t, "FROM") then true
            else Loads(ts, depth - if t == "(" then 1 else if t == ")" then -1 else 0)
  {
    var all := [t] + ts;
    var inner := depth - if t == "(" then 1 else if t == ")" then -1 else 0;
    KeywordsDiffer(t);
    assert Depth(all, 0) == 0;
    forall i, keyword | 0 <= i < |ts|
      ensures At(all, i + 1, depth, keyword) == At(ts, i, inner, keyword)
    {
      DepthCons(t, ts, i);
    }
    hide EqIgnoreCase, Depth;
    if Loads(all, depth) {
      var i :| At(all, i, depth, "FROM") && forall j :: 0 <= j < i ==> !At(all, j, depth, "TO");
      if i > 0 {
        assert At(ts, i - 1, inner, "FROM");
        assert forall j :: 0 <= j < i - 1 ==> At(all, j + 1, depth, "TO") == At(ts, j, inner, "TO");
        assert !At(all, 0, depth, "TO");
      }
    }
    if depth == 0 && EqIgnoreCase(t, "FROM") {
      assert At(all, 0, depth, "FROM");
    } else if !At(all, 0, depth, "TO") && Loads(ts, inner) {
      var i :| At(ts, i, inner, "FROM") && forall j :: 0 <= j < i ==> !At(ts, j, inner, "TO");
      assert At(all, i + 1, depth, "FROM");
      assert forall j :: 1 <= j < i + 1 ==> At(all, j, depth, "TO") == At(ts, j - 1, inner, "TO");
    }
  }

  lemma {:induction false} KeywordsDiffer(t: string)
    ensures !(EqIgnoreCase(t, "TO") && EqIgnoreCase(t, "FROM"))
    ensures t == "(" || t == ")" ==> !EqIgnoreCase(t, "TO") && !EqIgnoreCase(t, "FROM")
  {
    assert |Lower(t)| == |t| && |Lower("TO")| == 2 && |Lower("FROM")| == 4;
  }

  lemma {:induction false} SinkIff(ts: seq<string>, depth: int)
    ensures CopySink(ts, depth) <==> !Loads(ts, 0 - depth)
    decreases |ts|
  {
    if ts != [] {
      KeywordsDiffer(ts[0]);
      SinkIff(ts[1..], depth + if ts[0] == "(" then 1 else if ts[0] == ")" then -1 else 0);
      assert ts == [ts[0]] + ts[1..];
      LoadsCons(ts[0], ts[1..], 0 - depth);
      hide Loads, EqIgnoreCase;
    }
  }

  lemma {:induction false} CopyIff(stripped: string)
    ensures CopyWritesFile(stripped) <==> CopyToFile(Tokenize(stripped))
  {
    var ts := Tokenize(stripped);
    if ts != [] {
      SinkIff(ts[1..], 0);
    }
    hide Tokenize, CopySink, Loads;
  }

  /** The tokens from place 1 up to place `i` come before any option block and any AS. */
  predicate InHead(ts: seq<string>, i: int) {
    0 < i < |ts| && forall j :: 0 < j <= i ==> ts[j] != "(" && !EqIgnoreCase(ts[j], "AS")
  }

  /** A CREATE with SECRET, and with PERSISTENT or IN, before its option block. */
  ghost predicate PersistentSecret(ts: seq<string>) {
    && ts != [] && EqIgnoreCase(ts[0], "CREATE")
    && (exists i :: InHead(ts, i) && EqIgnoreCase(ts[i], "SECRET"))
    && (exists i :: InHead(ts, i) && (EqIgnoreCase(ts[i], "PERSISTENT") || EqIgnoreCase(ts[i], "IN")))
  }

  /** The same from place 0. */
  predicate NoneUpTo(ts: seq<string>, i: int) {
    0 <= i < |ts| && forall j :: 0 <= j <= i ==> ts[j] != "(" && !EqIgnoreCase(ts[j], "AS")
  }

  /** The head is the tokens at those places. */
  lemma {:induction false} HeadPlaces(ts: seq<string>)
    ensures SecretHead(ts) <= ts
    ensures forall i :: NoneUpTo(ts, i) <==> 0 <= i < |SecretHead(ts)|
  {
    hide EqIgnoreCase;
    if ts != [] && ts[0] != "(" && !EqIgnoreCase(ts[0], "AS") {
      var rest := ts[1..];
      HeadPlaces(rest);
      assert SecretHead(ts) == [ts[0]] + SecretHead(rest);
      forall i
        ensures NoneUpTo(ts, i) <==> 0 <= i < |SecretHead(ts)|
      {
        assert forall j :: 0 < j < |ts| ==> ts[j] == rest[j - 1];
        assert forall j :: 0 <= j < |rest| ==> rest[j] == ts[j + 1];
        assert NoneUpTo(rest, i - 1) <==> 0 <= i - 1 < |SecretHead(rest)|;
      }
    }
  }

  lemma {:induction false} HeadIs(ts: seq<string>, keyword: string)
    requires ts != []
    ensures AnyIs(SecretHead(ts[1..]), keyword) <==> exists i :: InHead(ts, i) && EqIgnoreCase(ts[i], keyword)
  {
    var rest := ts[1..];
    var head := SecretHead(rest);
    HeadPlaces(rest);
    assert forall i :: 0 < i < |ts| ==> ts[i] == rest[i - 1];
    hide EqIgnoreCase, SecretHead;
    assert forall j :: 0 <= j < |rest| ==> rest[j] == ts[j + 1];
    forall i
      ensures InHead(ts, i) <==> 0 < i <= |head|
    {
      assert NoneUpTo(rest, i - 1) <==> 0 <= i - 1 < |head|;
    }
    if AnyIs(head, keyword) {
      var i :| 0 <= i < |head| && EqIgnoreCase(head[i], keyword);
      assert head[i] == rest[i] == ts[i + 1];
      assert InHead(ts, i + 1) && EqIgnoreCase(ts[i + 1], keyword);
    }
    if i :| InHead(ts, i) && EqIgnoreCase(ts[i], keyword) {
      assert head[i - 1] == rest[i - 1] == ts[i];
    }
  }

  lemma {:induction false} PersistentIff(stripped: string)
    ensures CreatesPersistentSecret(stripped) <==> PersistentSecret(Tokenize(stripped))
  {
    var ts := Tokenize(stripped);
    hide Tokenize, EqIgnoreCase, SecretHead, AnyIs, InHead;
    if ts != [] {
      HeadIs(ts, "SECRET");
      HeadIs(ts, "PERSISTENT");
      HeadIs(ts, "IN");
    }
  }

  /** The tokens between CALL and its argument list, unquoted, in small letters and in one. */
  function Target(names: seq<string>): string {
    if names == [] then "" else Lower(Unquote(names[0])) + Target(names[1..])
  }

  /** A CALL of a function whose name, behind any qualification, begins with `ducklake_`. */
  ghost predicate DucklakeCall(ts: seq<string>) {
    && ts != [] && EqIgnoreCase(ts[0], "CALL")
    && exists n: nat, p: string, f: string ::
         && NamesEnd(ts, n) && Target(ts[1..n]) == p + f
         && (p == "" || p[|p| - 1] == '.') && '.' !in f && "ducklake_" <= f
  }

  /** The argument list opens at place `n`, or there is none. */
  predicate NamesEnd(ts: seq<string>, n: nat) {
    1 <= n <= |ts| && (forall i :: 1 <= i < n ==> ts[i] != "(") && (n < |ts| ==> ts[n] == "(")
  }

  lemma {:induction false} CallNameIs(ts: seq<string>) returns (n: nat)
    ensures n <= |ts| && (forall i :: 0 <= i < n ==> ts[i] != "(") && (n < |ts| ==> ts[n] == "(")
    ensures CallName(ts) == Target(ts[..n])
  {
    hide Unquote, Lower;
    if ts == [] || ts[0] == "(" {
      n := 0;
    } else {
      var m := CallNameIs(ts[1..]);
      n := m + 1;
      assert ts[..n] == [ts[0]] + ts[1..][..m];
      assert ts[..n][1..] == ts[1..][..m];
      assert forall i :: 1 <= i < n ==> ts[i] == ts[1..][i - 1];
    }
  }

  lemma {:induction false} LastPart(s: string) returns (p: string)
    ensures s == p + AfterLastDot(s) && (p == "" || p[|p| - 1] == '.') && '.' !in AfterLastDot(s)
  {
    if exists i :: 0 <= i < |s| && s[i] == '.' {
      if s[0] == '.' && '.' !in s[1..] {
        p := ".";
      } else {
        var i :| 0 <= i < |s| && s[i] == '.';
        assert '.' in s[1..] by {
          if i > 0 {
            assert s[1..][i - 1] == '.';
          }
        }
        var q := LastPart(s[1..]);
        p := [s[0]] + q;
        assert s == [s[0]] + s[1..];
      }
    } else {
      p := "";
    }
  }

  lemma {:induction false} PartsAgree(p: string, f: string, q: string, g: string)
    requires p + f == q + g && '.' !in f && '.' !in g
    requires (p == "" || p[|p| - 1] == '.') && (q == "" || q[|q| - 1] == '.')
    ensures f == g
  {
    var s := p + f;
    assert forall i :: |p| <= i < |s| ==> s[i] == f[i - |p|] && s[i] == (q + g)[i];
    assert forall i :: |q| <= i < |s| ==> s[i] == g[i - |q|];
    assert q != "" ==> s[|q| - 1] == '.';
    assert p != "" ==> s[|p| - 1] == '.';
    assert |p| == |q|;
    assert f == s[|p|..] && g == (q + g)[|q|..];
  }

  lemma {:induction false} DucklakeCallIff(stripped: string)
    ensures CallTargetsDucklake(stripped) <==> DucklakeCall(Tokenize(stripped))
  {
    var ts := Tokenize(stripped);
    hide Tokenize, EqIgnoreCase, Target, AfterLastDot, CallName;
    if ts != [] && EqIgnoreCase(ts[0], "CALL") {
      var m := CallNameIs(ts[1..]);
      var q := LastPart(CallName(ts[1..]));
      var g := AfterLastDot(CallName(ts[1..]));
      assert ts[1..][..m] == ts[1..m + 1];
      assert NamesEnd(ts, m + 1) by {
        assert forall i :: 1 <= i < m + 1 ==> ts[i] == ts[1..][i - 1];
      }
      if "ducklake_" <= g {
        assert Target(ts[1..m + 1]) == q + g;
      }
      if DucklakeCall(ts) {
        var n: nat, p: string, f: string :| NamesEnd(ts, n) && Target(ts[1..n]) == p + f
          && (p == "" || p[|p| - 1] == '.') && '.' !in f && "ducklake_" <= f;
        OneEnd(ts, n, m + 1);
        PartsAgree(p, f, q, g);
      }
    }
  }

  lemma {:induction false} OneEnd(ts: seq<string>, n: nat, m: nat)
    requires NamesEnd(ts, n) && NamesEnd(ts, m)
    ensures n == m
  {
  }

  // --- What admission guarantees ---

  /** A function a non-writer may not call, called at place `i`. */
  predicate RefusedCall(ts: seq<Scanned>, i: nat)
    requires i < |ts|
  {
    && ts[i].Word? && i + 1 < |ts| && ts[i + 1] == Punct('(')
    && !(i > 0 && WordOf(ts[i - 1]).Some? && WordOf(ts[i - 1]).value in NON_CALL_PREDECESSORS)
    && var word := Lower(ts[i].text);
       word in NON_WRITER_FUNCTIONS || ("ducklake_" <= word && word !in NON_WRITER_DUCKLAKE_FUNCTIONS)
  }

  const MODIFIERS: set<string> := {"or", "replace", "temp", "temporary"}

  /** Word `i` is the first behind CREATE that is no modifier. */
  predicate CreatedAt(ts: seq<Scanned>, i: int, word: string) {
    && 0 < i < |ts| && ts[i].Word? && Lower(ts[i].text) == word && word !in MODIFIERS
    && forall j :: 0 < j < i && ts[j].Word? ==> Lower(ts[j].text) in MODIFIERS
  }

  /** CREATE MACRO or CREATE FUNCTION, with any modifiers between. */
  ghost predicate CreatesCode(ts: seq<Scanned>) {
    && ts != [] && ts[0].Word? && Lower(ts[0].text) == "create"
    && (Created(ts, "macro") || Created(ts, "function"))
  }

  ghost predicate Created(ts: seq<Scanned>, word: string) {
    exists i :: CreatedAt(ts, i, word)
  }

  lemma {:induction false} KindIs(ts: seq<Scanned>)
    requires ts != []
    ensures forall word :: Created(ts, word) <==> CreateKind(ts[1..]) == Some(word)
    decreases |ts|
  {
    hide Lower;
    if |ts| > 1 {
      var rest := ts[1..];
      var t := rest[0];
      KindIs(rest);
      assert forall j :: 0 < j < |ts| ==> ts[j] == rest[j - 1];
      assert ts[1..][1..] == rest[1..];
      if t.Word? && Lower(t.text) !in MODIFIERS {
        assert CreatedAt(ts, 1, Lower(t.text));
        assert CreateKind(rest) == Some(Lower(t.text));
      } else {
        forall i, word
          ensures CreatedAt(ts, i, word) <==> CreatedAt(rest, i - 1, word)
        {
          assert forall j :: 0 < j < |rest| ==> rest[j] == ts[j + 1];
        }
        forall word
          ensures Created(ts, word) <==> Created(rest, word)
        {
          if i :| CreatedAt(rest, i, word) {
            assert CreatedAt(ts, i + 1, word);
          }
        }
      }
    }
  }

  lemma {:induction false} CreatesCodeIff(ts: seq<Scanned>)
    ensures CreateRefusal(ts).Some? <==> CreatesCode(ts)
  {
    if ts != [] {
      KindIs(ts);
    }
    hide CreateKind, Created, Lower;
  }

  /** A word or literal that holds the prefix of session secrets, in any case. */
  ghost predicate Mentions(t: Scanned) {
    !t.Punct? && exists a: string, b: string :: Lower(t.text) == a + ("__duckvis_" + b)
  }

  lemma {:induction false} MentionsIff(t: Scanned)
    ensures NamesReserved(t) <==> Mentions(t)
  {
    if NamesReserved(t) {
      var s := Lower(t.text);
      var i :| 0 <= i <= |s| && RESERVED_SECRET_PREFIX <= s[i..];
      assert s[i..] == "__duckvis_" + s[i..][10..];
      assert s == s[..i] + ("__duckvis_" + s[i..][10..]);
    }
    if Mentions(t) {
      var a: string, b: string :| Lower(t.text) == a + ("__duckvis_" + b);
      assert Lower(t.text)[|a|..] == "__duckvis_" + b;
    }
  }

  /** No token names the reserved prefix; for a non-writer no word names a metadata catalog, no
      refused function is called, and no macro or function is created. */
  ghost predicate Clean(ts: seq<Scanned>, writer: bool) {
    && (forall i :: 0 <= i < |ts| ==> !Mentions(ts[i]))
    && (!writer ==>
          && (forall i :: 0 <= i < |ts| && ts[i].Word? ==> !("__ducklake_metadata" <= Lower(ts[i].text)))
          && (forall i :: 0 <= i < |ts| ==> !RefusedCall(ts, i))
          && !CreatesCode(ts))
  }

  lemma {:induction false} NoFirstRefusal(ts: seq<Scanned>, i: nat)
    requires i <= |ts|
    ensures FirstRefusal(ts, i).None? <==> forall j :: i <= j < |ts| ==> TokenRefusal(ts, j).None?
    decreases |ts| - i
  {
    if i < |ts| {
      hide TokenRefusal;
      NoFirstRefusal(ts, i + 1);
    }
  }

  lemma {:induction false} CleanIff(ts: seq<Scanned>, writer: bool)
    ensures RefusedTokens(ts, writer).None? <==> Clean(ts, writer)
  {
    NoFirstRefusal(ts, 0);
    CreatesCodeIff(ts);
    forall i | 0 <= i < |ts|
      ensures NamesReserved(ts[i]) <==> Mentions(ts[i])
    {
      MentionsIff(ts[i]);
    }
    hide FirstRefusal, NamesReserved, Mentions, CreateRefusal, CreatesCode;
    forall i | 0 <= i < |ts|
      ensures TokenRefusal(ts, i).None?
         <==> !RefusedCall(ts, i) && !(ts[i].Word? && "__ducklake_metadata" <= Lower(ts[i].text))
    {
      hide Lower;
    }
    hide TokenRefusal, RefusedCall;
  }

  /** The scanned words of an admitted statement with a leading keyword are clean, and it is no
      ATTACH and no persistent secret; for a non-writer it is no EXPORT, no call of a ducklake
      function, and no COPY to a file. */
  lemma {:induction false} AdmittedIsClean(sql: string, writer: bool, i: nat)
    requires Admitted(sql, writer) && i < |Split(sql)| && Keyword(Split(sql)[i]).Some?
    ensures var piece := Split(sql)[i];
            var ts := Tokenize(Strip(piece));
            && Clean(Scan(Strip(piece)), writer)
            && Keyword(piece) != Some("ATTACH") && !PersistentSecret(ts)
            && (!writer ==> Keyword(piece) != Some("EXPORT") && !DucklakeCall(ts) && !CopyToFile(ts))
  {
    var piece := Split(sql)[i];
    DenyFirstNone(Split(sql), writer);
    assert Deny(piece, writer).None?;
    CleanIff(Scan(Strip(piece)), writer);
    FirstTokens(piece);
    PersistentIff(Strip(piece));
    DucklakeCallIff(Strip(piece));
    CopyIff(Strip(piece));
    hide Clean, RefusedTokens, Scan, Strip, Keyword, Tokenize, CreatesPersistentSecret, CallTargetsDucklake;
    hide CopyWritesFile, PersistentSecret, DucklakeCall, CopyToFile;
  }

  /** The classifiers only fire on statements with their keyword. */
  lemma {:induction false} FirstTokens(piece: string)
    ensures CreatesPersistentSecret(Strip(piece)) ==> Keyword(piece) == Some("CREATE")
    ensures CallTargetsDucklake(Strip(piece)) ==> Keyword(piece) == Some("CALL")
    ensures CopyWritesFile(Strip(piece)) ==> Keyword(piece) == Some("COPY")
  {
    hide Strip, Keyword, Tokenize, EqIgnoreCase;
    if CreatesPersistentSecret(Strip(piece)) {
      FirstStrippedIsKeyword(piece, "CREATE");
    }
    if CallTargetsDucklake(Strip(piece)) {
      FirstStrippedIsKeyword(piece, "CALL");
    }
    if CopyWritesFile(Strip(piece)) {
      FirstStrippedIsKeyword(piece, "COPY");
    }
  }

  /** A statement that is not clean is admitted exactly when it has no leading keyword. */
  lemma {:induction false} UncleanIsAdmittedIff(statement: string, writer: bool)
    requires !Clean(Scan(Strip(statement)), writer)
    ensures Deny(statement, writer).None? <==> Keyword(statement).None?
  {
    CleanIff(Scan(Strip(statement)), writer);
    hide Clean, RefusedTokens, Scan, Strip, Keyword, CreatesPersistentSecret, CallTargetsDucklake, CopyWritesFile;
  }

  /** Such is every statement in parentheses: none is refused, though the parenthesis hides no
      reserved name and no call. */
  lemma {:induction false} ParenthesisedIsAdmitted(s: string, writer: bool)
    ensures Deny("(" + s, writer).None?
    ensures Scan(Strip("(" + s)) == [Punct('(')] + Scan(Strip(s))
  {
    var t := "(" + s;
    assert t[1..] == s && First(t) == Plain('(');
    assert Lex(t) == [Plain('(')] + Lex(s);
    StripCons(Lex(t));
    assert Lex(t)[1..] == Lex(s);
    hide Lex;
    assert Strip(t) == "(" + Strip(s);
    assert ("(" + Strip(s))[1..] == Strip(s);
  }

  lemma {:induction false} ParenthesisHidesNothing(ts: seq<Scanned>, i: nat)
    requires i < |ts|
    ensures NamesReserved(([Punct('(')] + ts)[i + 1]) == NamesReserved(ts[i])
    ensures RefusedCall([Punct('(')] + ts, i + 1) == RefusedCall(ts, i)
  {
    var all := [Punct('(')] + ts;
    assert forall j :: 0 <= j < |ts| ==> all[j + 1] == ts[j];
    hide NamesReserved, Lower;
  }

  // --- What the scanner finds ---

  /** A character of a bare word: a letter, a digit, an underscore or a dollar sign. */
  predicate Wordly(c: char) {
    'a' <= c <= 'z' || 'A' <= c <= 'Z' || '0' <= c <= '9' || c == '_' || c == '$'
  }

  lemma {:induction false} WordRuns(w: string, rest: string)
    requires (forall i :: 0 <= i < |w| ==> Wordly(w[i])) && (rest == "" || !Wordly(rest[0]))
    ensures WordLength(w + rest) == |w|
  {
    if w == "" {
      assert w + rest == rest;
    } else {
      assert (w + rest)[1..] == w[1..] + rest;
      WordRuns(w[1..], rest);
    }
  }

  /** A bare word, up to the first character that is none of its own. */
  lemma {:induction false} ScanWord(w: string, rest: string)
    requires w != "" && w[0] != '$' && (forall i :: 0 <= i < |w| ==> Wordly(w[i])) && (rest == "" || !Wordly(rest[0]))
    ensures Scan(w + rest) == [Word(w, false)] + Scan(rest)
  {
    var s := w + rest;
    assert s[0] == w[0];
    WordRuns(w, rest);
    assert s[..|w|] == w && s[|w|..] == rest;
  }

  lemma {:induction false} ContentOf(v: string, q: char, rest: string)
    requires rest == "" || rest[0] != q
    ensures QuoteContent(Double(v, q) + ([q] + rest), q) == v
  {
    var d := Double(v, q) + ([q] + rest);
    if v == "" {
      assert d == [q] + rest;
    } else {
      ContentOf(v[1..], q, rest);
      if v[0] == q {
        assert d[2..] == Double(v[1..], q) + ([q] + rest);
      } else {
        assert d[1..] == Double(v[1..], q) + ([q] + rest);
      }
    }
  }

  /** A quoted text is one token, a word in double quotes and a literal in single ones, with its
      quotes undone. */
  lemma {:induction false} ScanQuoted(v: string, q: char, rest: string)
    requires IsQuote(q) && (rest == "" || rest[0] != q)
    ensures Scan(Quote(v, q) + rest) == [if q == '"' then Word(v, true) else Literal(v)] + Scan(rest)
  {
    var s := Quote(v, q) + rest;
    assert s[0] == q && s[1..] == Double(v, q) + ([q] + rest);
    QuoteLengthDouble(v, q, rest);
    ContentOf(v, q, rest);
    assert s[1 + (|Double(v, q)| + 1)..] == rest;
  }

  /** Blanks separate, and any other character is a token of its own. */
  lemma {:induction false} ScanOther(c: char, rest: string)
    requires !IsQuote(c) && !(Wordly(c) && c != '$')
    ensures Scan([c] + rest) == if IsWhitespace(c) then Scan(rest) else [Punct(c)] + Scan(rest)
  {
    assert ([c] + rest)[1..] == rest;
  }

  // --- A refused call is refused ---

  /** A character that begins neither a comment nor a quoted text, nor ends a statement. */
  predicate Simple(c: char) {
    Wordly(c) || c == ' ' || c == '*' || c == '('
  }

  lemma {:induction false} StripChar(c: char, rest: string)
    requires Simple(c)
    ensures Strip([c] + rest) == [c] + Strip(rest)
  {
    var s := [c] + rest;
    assert First(s) == Plain(c) && s[1..] == rest;
    assert Lex(s) == [Plain(c)] + Lex(rest);
    StripCons(Lex(s));
    assert Lex(s)[1..] == Lex(rest);
    hide Lex;
  }

  lemma {:induction false} StripSimple(w: string, rest: string)
    requires forall i :: 0 <= i < |w| ==> Simple(w[i])
    ensures Strip(w + rest) == w + Strip(rest)
  {
    hide Strip, Simple;
    if w == "" {
      assert w + rest == rest && w + Strip(rest) == Strip(rest);
    } else {
      StripSimple(w[1..], rest);
      StripChar(w[0], w[1..] + rest);
      assert w + rest == [w[0]] + (w[1..] + rest);
    }
  }

  lemma {:induction false} ScanHead(rest: string)
    ensures Scan("SELECT * FROM " + rest)
         == [Word("SELECT", false), Punct('*'), Word("FROM", false)] + Scan(rest)
  {
    var r3 := " " + rest;
    var r2 := "FROM" + r3;
    var r1 := " " + r2;
    var r0 := "*" + r1;
    hide Scan;
    assert "SELECT * FROM " + rest == "SELECT" + (" " + r0);
    ScanWord("SELECT", " " + r0);
    ScanOther(' ', r0);
    ScanOther('*', r1);
    ScanOther(' ', r2);
    ScanWord("FROM", r3);
    ScanOther(' ', rest);
  }

  /** A non-writer that selects from a refused function is refused, in any case of the name and
      whatever follows the parenthesis. */
  lemma {:induction false} CallIsRefused(f: string, rest: string)
    requires f != "" && f[0] != '$' && (forall i :: 0 <= i < |f| ==> Wordly(f[i]))
    requires Lower(f) in NON_WRITER_FUNCTIONS || ("ducklake_" <= Lower(f) && Lower(f) !in NON_WRITER_DUCKLAKE_FUNCTIONS)
    ensures Deny("SELECT * FROM " + (f + ("(" + rest)), false).Some?
  {
    var s := "SELECT * FROM " + (f + ("(" + rest));
    CallTokens(f, rest);
    var ts := Scan(Strip(s));
    assert ts[3] == Word(f, false) && ts[4] == Punct('(') && ts[2] == Word("FROM", false);
    assert Lower("FROM") == "from";
    assert RefusedCall(ts, 3);
    assert Keyword(s).Some? by {
      SelectIsKeyword(f + ("(" + rest));
    }
    assert !Clean(ts, false);
    hide Clean, Scan, Strip, Keyword, Deny, Lower, RefusedCall;
    UncleanIsAdmittedIff(s, false);
  }

  lemma {:induction false} CallTokens(f: string, rest: string)
    requires f != "" && f[0] != '$' && (forall i :: 0 <= i < |f| ==> Wordly(f[i]))
    ensures Scan(Strip("SELECT * FROM " + (f + ("(" + rest))))
         == [Word("SELECT", false), Punct('*'), Word("FROM", false), Word(f, false), Punct('(')] + Scan(Strip(rest))
  {
    var head := "SELECT * FROM " + (f + "(");
    hide Scan, Strip;
    assert "SELECT * FROM " + (f + ("(" + rest)) == head + rest;
    StripSimple(head, rest);
    hide Wordly, Simple;
    assert head + Strip(rest) == "SELECT * FROM " + (f + ("(" + Strip(rest)));
    ScanHead(f + ("(" + Strip(rest)));
    ScanWord(f, "(" + Strip(rest));
    ScanOther('(', Strip(rest));
  }

  lemma {:induction false} SelectIsKeyword(rest: string)
    ensures Keyword("SELECT * FROM " + rest) == Some("SELECT")
  {
    var t := " * FROM " + rest;
    hide Keyword, Upper;
    assert "SELECT * FROM " + rest == "SELECT" + t;
    KeywordIs("SELECT", t);
    SelectUpper();
  }

  lemma {:induction false} SelectUpper()
    ensures Upper("SELECT") == "SELECT"
  {
  }
}
