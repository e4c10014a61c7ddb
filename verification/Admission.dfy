/**
 Statement admission: which user SQL a session may run. Everything is decided from the
 comment-stripped text of each top-level statement.
 */
module Admission {
  import opened Ascii
  import opened Lexemes
  import opened Statements
  import opened Wrappers
  import opened Tokens

  // --- The scanner behind the refusals ---

  datatype Scanned = Word(text: string, quoted: bool) | Literal(text: string) | Punct(c: char)

  /** The contents of a quoted token whose opening quote has been read. */
  function QuoteContent(s: string, q: char): string {
    if s == "" then ""
    else if s[0] != q then [s[0]] + QuoteContent(s[1..], q)
    else if |s| > 1 && s[1] == q then [q] + QuoteContent(s[2..], q)
    else ""
  }

  predicate WordChar(c: char) {
    IsAlphanumeric(c) || c == '_' || c == '$'
  }

  function WordLength(s: string): (n: nat)
    ensures n <= |s|
  {
    if s != "" && WordChar(s[0]) then 1 + WordLength(s[1..]) else 0
  }

  function QuotedToken(q: char, text: string): Scanned {
    if q == '"' then Word(text, true) else Literal(text)
  }

  function Scan(s: string): seq<Scanned> {
    if s == "" then []
    else if IsWhitespace(s[0]) then Scan(s[1..])
    else if IsQuote(s[0]) then
      [QuotedToken(s[0], QuoteContent(s[1..], s[0]))] + Scan(s[1 + QuoteLength(s[1..], s[0])..])
    else if IsAlphanumeric(s[0]) || s[0] == '_' then
      [Word(s[..WordLength(s)], false)] + Scan(s[WordLength(s)..])
    else [Punct(s[0])] + Scan(s[1..])
  }

  // --- Refused constructs ---

  const RESERVED_SECRET_PREFIX := "__duckvis_"

  const NON_WRITER_FUNCTIONS: set<string> := {
    "postgres_scan", "postgres_scan_pushdown", "postgres_query", "postgres_execute",
    "postgres_attach", "query", "query_table", "json_execute_serialized_sql"
  }

  const NON_WRITER_DUCKLAKE_FUNCTIONS: set<string> := {
    "ducklake_current_snapshot", "ducklake_last_committed_snapshot", "ducklake_options",
    "ducklake_settings", "ducklake_snapshots", "ducklake_table_info", "ducklake_table_changes",
    "ducklake_table_insertions", "ducklake_table_deletions"
  }

  const NON_CALL_PREDECESSORS: set<string> := {"table", "into", "view", "exists"}

  datatype Refusal = ReservedName | NonWriter(what: string)

  predicate Contains(s: string, part: string) {
    exists i :: 0 <= i <= |s| && part <= s[i..]
  }

  predicate NamesReserved(t: Scanned) {
    !t.Punct? && Contains(Lower(t.text), RESERVED_SECRET_PREFIX)
  }

  /** The lower-cased word of a token, or None for a literal or punctuation. */
  function WordOf(t: Scanned): Option<string> {
    if t.Word? then Some(Lower(t.text)) else None
  }

  /** The first word that is not one of the modifiers of CREATE. */
  function CreateKind(ts: seq<Scanned>): Option<string> {
    if ts == [] then None
    else if ts[0].Word? && Lower(ts[0].text) !in {"or", "replace", "temp", "temporary"} then WordOf(ts[0])
    else CreateKind(ts[1..])
  }

  function CreateRefusal(ts: seq<Scanned>): Option<Refusal> {
    if ts != [] && WordOf(ts[0]) == Some("create") then
      match CreateKind(ts[1..])
      case Some("macro") => Some(NonWriter("CREATE MACRO"))
      case Some("function") => Some(NonWriter("CREATE FUNCTION"))
      case _ => None
    else None
  }

  /** The refusal of the token at `i`, given the tokens around it. */
  function TokenRefusal(ts: seq<Scanned>, i: nat): Option<Refusal>
    requires i < |ts|
  {
    if !ts[i].Word? then None else
    var word := Lower(ts[i].text);
    if "__ducklake_metadata" <= word then Some(NonWriter("__ducklake_metadata catalogs"))
    else if i + 1 >= |ts| || ts[i + 1] != Punct('(') then None
    else if i > 0 && WordOf(ts[i - 1]).Some? && WordOf(ts[i - 1]).value in NON_CALL_PREDECESSORS then None
    else if word in NON_WRITER_FUNCTIONS then Some(NonWriter(word))
    else if "ducklake_" <= word && word !in NON_WRITER_DUCKLAKE_FUNCTIONS then
      Some(NonWriter("ducklake_* maintenance and file listing"))
    else None
  }

  function FirstRefusal(ts: seq<Scanned>, i: nat): Option<Refusal>
    requires i <= |ts|
    decreases |ts| - i
  {
    if i == |ts| then None
    else if TokenRefusal(ts, i).Some? then TokenRefusal(ts, i)
    else FirstRefusal(ts, i + 1)
  }

  function RefusedTokens(ts: seq<Scanned>, writer: bool): Option<Refusal> {
    if exists i :: 0 <= i < |ts| && NamesReserved(ts[i]) then Some(ReservedName)
    else if writer then None
    else if CreateRefusal(ts).Some? then CreateRefusal(ts)
    else FirstRefusal(ts, 0)
  }

  function Refused(statement: string, writer: bool): Option<Refusal> {
    RefusedTokens(Scan(Strip(statement)), writer)
  }

  // --- The classifiers ---

  predicate FirstIs(ts: seq<string>, keyword: string) {
    ts != [] && EqIgnoreCase(ts[0], keyword)
  }

  /** The lower-cased, unquoted tokens before the argument list, joined. */
  function CallName(ts: seq<string>): string {
    if ts == [] || ts[0] == "(" then "" else Lower(Unquote(ts[0])) + CallName(ts[1..])
  }

  /** What follows the last dot. */
  function AfterLastDot(s: string): string {
    if exists i :: 0 <= i < |s| && s[i] == '.' then
      if s[0] == '.' && '.' !in s[1..] then s[1..] else AfterLastDot(s[1..])
    else s
  }

  predicate CallTargetsDucklake(stripped: string) {
    var ts := Tokenize(stripped);
    FirstIs(ts, "CALL") && "ducklake_" <= AfterLastDot(CallName(ts[1..]))
  }

  /** The tokens before the option block or the AS of a CREATE statement. */
  function SecretHead(ts: seq<string>): seq<string> {
    if ts == [] || ts[0] == "(" || EqIgnoreCase(ts[0], "AS") then [] else [ts[0]] + SecretHead(ts[1..])
  }

  predicate AnyIs(ts: seq<string>, keyword: string) {
    exists i :: 0 <= i < |ts| && EqIgnoreCase(ts[i], keyword)
  }

  predicate CreatesPersistentSecret(stripped: string) {
    var ts := Tokenize(stripped);
    FirstIs(ts, "CREATE")
    && var head := SecretHead(ts[1..]);
       AnyIs(head, "SECRET") && (AnyIs(head, "PERSISTENT") || AnyIs(head, "IN"))
  }

  predicate CopySink(ts: seq<string>, depth: int) {
    if ts == [] then true
    else if ts[0] == "(" then CopySink(ts[1..], depth + 1)
    else if ts[0] == ")" then CopySink(ts[1..], depth - 1)
    else if depth == 0 && EqIgnoreCase(ts[0], "TO") then true
    else if depth == 0 && EqIgnoreCase(ts[0], "FROM") then false
    else CopySink(ts[1..], depth)
  }

  predicate CopyWritesFile(stripped: string) {
    var ts := Tokenize(stripped);
    FirstIs(ts, "COPY") && CopySink(ts[1..], 0)
  }

  // --- Admission ---

  datatype Denial =
    | AttachNotPermitted
    | PersistentSecretNotPermitted
    | WriteNotPermitted(what: string)
    | ReservedNameNotPermitted

  /** Why one top-level statement is refused, if it is. */
  function Deny(statement: string, writer: bool): Option<Denial> {
    var keyword := Keyword(statement);
    var stripped := Strip(statement);
    if keyword.None? then None
    else if keyword.value == "ATTACH" then Some(AttachNotPermitted)
    else if keyword.value == "CREATE" && CreatesPersistentSecret(stripped) then Some(PersistentSecretNotPermitted)
    else if !writer && keyword.value == "EXPORT" then Some(WriteNotPermitted("EXPORT DATABASE"))
    else if !writer && keyword.value == "CALL" && CallTargetsDucklake(stripped) then
      Some(WriteNotPermitted("CALL ducklake_*"))
    else if !writer && keyword.value == "COPY" && CopyWritesFile(stripped) then
      Some(WriteNotPermitted("COPY to a file"))
    else
      match Refused(statement, writer)
      case Some(ReservedName) => Some(ReservedNameNotPermitted)
      case Some(NonWriter(what)) => Some(WriteNotPermitted(what))
      case None => None
  }

  function DenyFirst(pieces: seq<string>, writer: bool): Option<Denial> {
    if pieces == [] then None
    else if Deny(pieces[0], writer).Some? then Deny(pieces[0], writer)
    else DenyFirst(pieces[1..], writer)
  }

  /** Why the SQL of an authenticated session is refused, if it is. */
  function ValidateUserSql(sql: string, writer: bool): Option<Denial> {
    DenyFirst(Split(sql), writer)
  }

  predicate Admitted(sql: string, writer: bool) {
    ValidateUserSql(sql, writer).None?
  }

  // --- Comments cannot steer admission ---

  lemma {:induction false} DenyStrip(statement: string, writer: bool)
    ensures Deny(Strip(statement), writer) == Deny(statement, writer)
  {
    StripIdempotent(statement);
    KeywordStrip(statement);
  }

  lemma {:induction false} DenyFirstStrip(pieces: seq<string>, writer: bool)
    ensures DenyFirst(StripEach(pieces), writer) == DenyFirst(pieces, writer)
  {
    if pieces != [] {
      hide Deny, Strip;
      DenyStrip(pieces[0], writer);
      assert StripEach(pieces)[1..] == StripEach(pieces[1..]);
      DenyFirstStrip(pieces[1..], writer);
    }
  }

  /** The verdict on a text is the verdict on its comment-stripped text. */
  lemma {:induction false} AdmissionIgnoresComments(sql: string, writer: bool)
    ensures ValidateUserSql(Strip(sql), writer) == ValidateUserSql(sql, writer)
  {
    SplitStrip(sql);
    DenyFirstStrip(Split(sql), writer);
  }

  lemma {:induction false} DenyFirstNone(pieces: seq<string>, writer: bool)
    ensures DenyFirst(pieces, writer).None? <==> forall i :: 0 <= i < |pieces| ==> Deny(pieces[i], writer).None?
  {
    if pieces != [] {
      hide Deny;
      DenyFirstNone(pieces[1..], writer);
      assert forall i :: 1 <= i < |pieces| ==> pieces[i] == pieces[1..][i - 1];
    }
  }

  /** A text is admitted exactly when each of its statements would be admitted alone. */
  lemma {:induction false} AdmissionIsPerStatement(sql: string, writer: bool)
    ensures Admitted(sql, writer) <==> forall i :: 0 <= i < |Split(sql)| ==> Admitted(Split(sql)[i], writer)
  {
    DenyFirstNone(Split(sql), writer);
    forall i | 0 <= i < |Split(sql)|
      ensures Admitted(Split(sql)[i], writer) <==> Deny(Split(sql)[i], writer).None?
    {
      var piece := Split(sql)[i];
      if piece != "" {
        PieceSplitsToItself(sql, i);
        DenyFirstNone([piece], writer);
      } else {
        assert Split("") == [];
        EmptyNotDenied(writer);
      }
    }
  }

  lemma {:induction false} EmptyNotDenied(writer: bool)
    ensures Deny("", writer).None?
  {
    assert Lex("") == [];
  }

  /** A writer may run whatever a non-writer may. */
  lemma {:induction false} WriterAdmitsMore(sql: string)
    requires Admitted(sql, false)
    ensures Admitted(sql, true)
  {
    DenyFirstNone(Split(sql), false);
    DenyFirstNone(Split(sql), true);
    forall i | 0 <= i < |Split(sql)| ensures Deny(Split(sql)[i], true).None? {
      DenyWriter(Split(sql)[i]);
    }
  }

  lemma {:induction false} DenyWriter(statement: string)
    requires Deny(statement, false).None?
    ensures Deny(statement, true).None?
  {
  }
}
