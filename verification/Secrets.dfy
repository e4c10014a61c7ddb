/**
 The session-secret statement delivered beside an ATTACH.

 Every value is printed as a quoted literal with its quotes doubled, every key as a bare word,
 and the name must be the reserved prefix with 32 lower-case hexadecimal digits. A kind other
 than postgres, or a key that is no identifier or is TYPE, is refused. What is proved is that
 the text is one statement whatever the values hold, and that each value stands at its own
 place among the tokens and unquotes to itself: no value ends its quotes early, and none adds
 a token.
 */
module Secrets {
  import opened Ascii
  import opened Sequences
  import opened Statements
  import opened Wrappers
  import opened Tokens
  import opened Options
  import opened Attach
  import opened CodeTexts
  import opened Admission

  datatype Field = Field(key: string, value: string)

  predicate IsLowerHex(c: char) {
    IsDigit(c) || 'a' <= c <= 'f'
  }

  predicate ValidName(name: string) {
    && RESERVED_SECRET_PREFIX <= name
    && var hex := name[|RESERVED_SECRET_PREFIX|..];
       |hex| == 32 && forall i :: 0 <= i < 32 ==> IsLowerHex(hex[i])
  }

  predicate ValidKey(key: string) {
    && key != ""
    && (IsAlphanumeric(key[0]) || key[0] == '_') && !IsDigit(key[0])
    && (forall i :: 0 <= i < |key| ==> IsAlphanumeric(key[i]) || key[i] == '_')
    && !EqIgnoreCase(key, "TYPE")
  }

  function FieldText(f: Field): string {
    f.key + " " + Quote(f.value, '\'')
  }

  function FieldsText(fields: seq<Field>): string {
    if fields == [] then "" else ", " + FieldText(fields[0]) + FieldsText(fields[1..])
  }

  function HeadWords(name: string): seq<string> {
    ["CREATE", "OR", "REPLACE", "TEMPORARY", "SECRET", name]
  }

  function OptionsText(fields: seq<Field>): string {
    "TYPE postgres" + FieldsText(fields)
  }

  /** `None` is the AttachInvalid error. */
  function SecretStatement(name: string, kind: string, fields: seq<Field>): Option<string> {
    if !ValidName(name) || Lower(kind) != "postgres" then None
    else if exists i :: 0 <= i < |fields| && !ValidKey(fields[i].key) then None
    else Some(Spaced(HeadWords(name), "(" + OptionsText(fields) + ")"))
  }

  /** Build the statement field by field, refusing the first malformed key. */
  method BuildSecretStatement(name: string, kind: string, fields: seq<Field>) returns (sql: Option<string>)
    ensures sql == SecretStatement(name, kind, fields)
  {
    var kind := Lower(kind);
    if !ValidName(name) || kind != "postgres" {
      return None;
    }
    var options := "TYPE " + kind;
    for i := 0 to |fields|
      invariant forall j :: 0 <= j < i ==> ValidKey(fields[j].key)
      invariant options + FieldsText(fields[i..]) == OptionsText(fields)
    {
      if !ValidKey(fields[i].key) {
        return None;
      }
      assert fields[i..][1..] == fields[i + 1..];
      var text := ", " + FieldText(fields[i]);
      ConcatAssoc(options, text, FieldsText(fields[i + 1..]));
      options := options + text;
    }
    assert options + FieldsText(fields[|fields|..]) == options;
    sql := Some(Spaced(HeadWords(name), "(" + options + ")"));
  }

  // --- What the statement says ---

  function FieldTokens(fields: seq<Field>): seq<string> {
    if fields == [] then []
    else [",", fields[0].key, Quote(fields[0].value, '\'')] + FieldTokens(fields[1..])
  }

  function BlockOf(fields: seq<Field>): seq<string> {
    ["("] + (["TYPE"] + (["postgres"] + (FieldTokens(fields) + [")"])))
  }

  predicate GoodToken(t: string) {
    Token(t) && Closed(t)
  }

  lemma {:induction false} KeyToken(key: string)
    requires key != "" && forall c :: c in key ==> IsAlphanumeric(c) || c == '_'
    ensures GoodToken(key) && CodeText(key) && key != ")" && key != "," && key != "("
  {
    BareWord(key);
    CodeWord(key);
    assert key[0] in key;
  }

  lemma {:induction false} ValueToken(value: string)
    ensures var t := Quote(value, '\''); GoodToken(t) && CodeText(t) && t[0] == '\'' && Unquote(t) == value
  {
    QuoteClosedToken(value, '\'');
    CodeQuoted(Quote(value, '\''));
    UnquoteQuote(value, '\'');
  }

  lemma {:induction false} FieldTokensGood(fields: seq<Field>)
    requires forall i :: 0 <= i < |fields| ==> ValidKey(fields[i].key)
    ensures forall t :: t in FieldTokens(fields) ==> GoodToken(t) && CodeText(t)
  {
    if fields != [] {
      FieldTokensGood(fields[1..]);
      KeyToken(fields[0].key);
      ValueToken(fields[0].value);
      ConstantTokens();
      CodeWord(",");
    }
  }

  lemma {:induction false} FieldTail(prev: string, fields: seq<Field>)
    requires prev != "("
    requires forall i :: 0 <= i < |fields| ==> ValidKey(fields[i].key)
    ensures Tail(prev, FieldTokens(fields) + [")"]) == FieldsText(fields) + ")"
    decreases |fields|
  {
    if fields == [] {
      assert FieldTokens(fields) + [")"] == [")"];
      assert Tail(prev, [")"]) == ")";
    } else {
      var key, value := fields[0].key, Quote(fields[0].value, '\'');
      var rest := FieldTokens(fields[1..]) + [")"];
      KeyToken(key);
      FieldTail(value, fields[1..]);
      assert FieldTokens(fields) + [")"] == [",", key, value] + rest;
      FieldTailStep(prev, key, value, rest);
    }
  }

  lemma {:induction false} FieldTailStep(prev: string, key: string, value: string, rest: seq<string>)
    requires key != "" && key != ")" && key != "," && key != "(" && value != ""
    requires IsQuote(value[0])
    ensures Tail(prev, [",", key, value] + rest) == ", " + (key + " " + value) + Tail(value, rest)
  {
    var ts := [",", key, value] + rest;
    assert ts[1..] == [key, value] + rest && ts[1..][1..] == [value] + rest && ts[1..][1..][1..] == rest;
    assert Tail(key, [value] + rest) == " " + value + Tail(value, rest);
    assert Tail(",", [key, value] + rest) == " " + key + Tail(key, [value] + rest);
    assert Tail(prev, ts) == "," + Tail(",", [key, value] + rest);
  }

  lemma {:induction false} TailOne(prev: string, t: string, rest: seq<string>)
    ensures Tail(prev, [t] + rest) == Separator(prev, t) + t + Tail(t, rest)
  {
    assert ([t] + rest)[1..] == rest;
  }

  lemma {:induction false} BlockIsRebuilt(fields: seq<Field>)
    requires forall i :: 0 <= i < |fields| ==> ValidKey(fields[i].key)
    ensures Rebuild(BlockOf(fields)) == "(" + OptionsText(fields) + ")"
  {
    var rest := FieldTokens(fields) + [")"];
    var end := Tail("postgres", rest);
    var types := ["TYPE"] + (["postgres"] + rest);
    assert BlockOf(fields)[1..] == types;
    assert Rebuild(BlockOf(fields)) == "(" + Tail("(", types);
    hide Rebuild, Tail;
    FieldTail("postgres", fields);
    TailOne("(", "TYPE", ["postgres"] + rest);
    TailOne("TYPE", "postgres", rest);
    hide Tail, BlockOf, FieldTokens, FieldsText;
    BlockString(FieldsText(fields));
  }

  lemma {:induction false} BlockString(text: string)
    ensures "(" + ("TYPE" + (" " + "postgres" + (text + ")"))) == "(" + ("TYPE postgres" + text) + ")"
  {
    assert "TYPE" + (" " + "postgres") == "TYPE postgres";
    ConcatAssoc("TYPE", " " + "postgres", text);
    ConcatAssoc("TYPE", " " + "postgres" + text, ")");
    ConcatAssoc(" " + "postgres", text, ")");
    ConcatAssoc("(", "TYPE postgres" + text, ")");
  }

  lemma {:induction false} NameToken(name: string)
    requires ValidName(name)
    ensures GoodToken(name) && CodeText(name)
  {
    assert name == RESERVED_SECRET_PREFIX + name[|RESERVED_SECRET_PREFIX|..];
    KeyToken(name);
  }

  lemma {:induction false} HeadWordsGood(name: string)
    requires ValidName(name)
    ensures forall i :: 0 <= i < 6 ==> Closed(HeadWords(name)[i]) && CodeText(HeadWords(name)[i])
  {
    hide CodeText, Closed, Token;
    NameToken(name);
    KeyToken("CREATE");
    KeyToken("OR");
    KeyToken("REPLACE");
    KeyToken("TEMPORARY");
    KeyToken("SECRET");
  }

  lemma {:induction false} BlockGood(fields: seq<Field>)
    requires forall i :: 0 <= i < |fields| ==> ValidKey(fields[i].key)
    ensures var ts := BlockOf(fields);
            ValidTokens(ts) && Tokenize(Rebuild(ts)) == ts && CodeText(Rebuild(ts))
  {
    var ts := BlockOf(fields);
    hide CodeText, Closed, Token, Tokenize, Rebuild;
    FieldTokensGood(fields);
    ConstantTokens();
    CodeWord("(");
    CodeWord(")");
    KeyToken("TYPE");
    KeyToken("postgres");
    assert forall t :: t in ts ==> t in FieldTokens(fields) || t in ["(", "TYPE", "postgres", ")"];
    assert forall i :: 0 <= i < |ts| ==> ts[i] in ts;
    TokenizeRebuild(ts);
    CodeRebuild(ts);
  }

  /** No field value can leave its quotes: the statement is one statement, its tokens are
      the fixed head and, per field, a comma, the key and one literal. */
  lemma {:induction false} SecretStatementReads(name: string, kind: string, fields: seq<Field>)
    requires SecretStatement(name, kind, fields).Some?
    ensures var sql := SecretStatement(name, kind, fields).value;
            && Split(sql) == [sql]
            && Tokenize(sql) == ["CREATE", "OR", "REPLACE", "TEMPORARY", "SECRET", name, "(", "TYPE", "postgres"]
                                + (FieldTokens(fields) + [")"])
  {
    var sql := SecretStatement(name, kind, fields).value;
    assert sql[0] == 'C';
    BlockIsRebuilt(fields);
    BlockGood(fields);
    HeadWordsGood(name);
    hide CodeText, Closed, Token, Tokenize, Rebuild, BlockOf;
    TokenizeWords(HeadWords(name), Rebuild(BlockOf(fields)));
    CodeWords(HeadWords(name), Rebuild(BlockOf(fields)));
    CodeIsOneStatement(sql);
    OneStatementSplits(sql);
    SpelledOut(name, fields);
  }

  lemma {:induction false} SpelledOut(name: string, fields: seq<Field>)
    ensures HeadWords(name) + BlockOf(fields)
         == ["CREATE", "OR", "REPLACE", "TEMPORARY", "SECRET", name, "(", "TYPE", "postgres"]
            + (FieldTokens(fields) + [")"])
  {
    var rest := FieldTokens(fields) + [")"];
    assert BlockOf(fields) == ["(", "TYPE", "postgres"] + rest;
    assert HeadWords(name) + ["(", "TYPE", "postgres"]
        == ["CREATE", "OR", "REPLACE", "TEMPORARY", "SECRET", name, "(", "TYPE", "postgres"];
    ConcatAssoc(HeadWords(name), ["(", "TYPE", "postgres"], rest);
  }

  /** A statement is built for postgres secrets only, under a name of the reserved prefix and 32
      lower-case hexadecimal digits, with keys that are identifiers other than TYPE. */
  lemma {:induction false} SecretAcceptedIff(name: string, kind: string, fields: seq<Field>)
    ensures SecretStatement(name, kind, fields).Some?
       <==> && |name| == 42 && name[..10] == "__duckvis_"
            && (forall i :: 10 <= i < 42 ==> '0' <= name[i] <= '9' || 'a' <= name[i] <= 'f')
            && EqIgnoreCase(kind, "postgres")
            && forall i :: 0 <= i < |fields| ==> KeySpelled(fields[i].key)
  {
    assert Lower("postgres") == "postgres";
    NameSpelled(name);
    forall i | 0 <= i < |fields|
      ensures ValidKey(fields[i].key) <==> KeySpelled(fields[i].key)
    {
      KeyIs(fields[i].key);
    }
    hide ValidName, ValidKey, KeySpelled, Spaced;
  }

  predicate KeySpelled(key: string) {
    && key != "" && !('0' <= key[0] <= '9') && !EqIgnoreCase(key, "TYPE")
    && forall i :: 0 <= i < |key| ==>
         'a' <= key[i] <= 'z' || 'A' <= key[i] <= 'Z' || '0' <= key[i] <= '9' || key[i] == '_'
  }

  lemma {:induction false} KeyIs(key: string)
    ensures ValidKey(key) <==> KeySpelled(key)
  {
    hide EqIgnoreCase;
  }

  lemma {:induction false} NameSpelled(name: string)
    ensures ValidName(name)
       <==> && |name| == 42 && name[..10] == "__duckvis_"
            && forall i :: 10 <= i < 42 ==> '0' <= name[i] <= '9' || 'a' <= name[i] <= 'f'
  {
    assert |RESERVED_SECRET_PREFIX| == 10;
    if |name| == 42 {
      var hex := name[10..];
      assert RESERVED_SECRET_PREFIX <= name <==> name[..10] == "__duckvis_";
      assert forall i :: 0 <= i < 32 ==> hex[i] == name[i + 10];
      assert forall i :: 10 <= i < 42 ==> name[i] == hex[i - 10];
    }
  }

  lemma {:induction false} FieldTokensConcat(a: seq<Field>, b: seq<Field>)
    ensures FieldTokens(a + b) == FieldTokens(a) + FieldTokens(b)
  {
    if a == [] {
      assert a + b == b;
    } else {
      assert (a + b)[1..] == a[1..] + b;
      FieldTokensConcat(a[1..], b);
    }
  }

  /** Each field is a comma, its key, and a literal that unquotes to its value. */
  lemma {:induction false} SecretValueReads(fields: seq<Field>, i: nat)
    requires i < |fields|
    ensures FieldTokens(fields) == FieldTokens(fields[..i])
                                 + [",", fields[i].key, Quote(fields[i].value, '\'')]
                                 + FieldTokens(fields[i + 1..])
    ensures Unquote(Quote(fields[i].value, '\'')) == fields[i].value
  {
    ValueToken(fields[i].value);
    hide Quote, Unquote;
    assert FieldTokens([fields[i]]) == [",", fields[i].key, Quote(fields[i].value, '\'')];
    hide FieldTokens;
    SplitAt(fields, i);
    FieldTokensConcat(fields[..i], [fields[i]]);
    FieldTokensConcat(fields[..i] + [fields[i]], fields[i + 1..]);
  }
}
