/**
 The ATTACH option block: its comma-separated entries, and the rewrite that replaces every
 `READ_ONLY [value]` entry by one bare flag.

 The rewrite works on tokens: it cuts those between the first and the last one at the commas,
 whatever parentheses they hold, keeps the entries that are neither empty nor named READ_ONLY
 in any case, adds the bare flag, and prints all of it in parentheses. Cutting and joining are
 inverse to each other on entries without commas, which is what an entry cut from tokens is.
 */
module Options {
  import opened Ascii
  import opened Tokens

  type Entry = seq<string>

  /** The entries between commas, `current` being the one under construction. */
  function EntriesFrom(current: Entry, ts: seq<string>): seq<Entry>
    decreases |ts|
  {
    if ts == [] then [current]
    else if ts[0] == "," then [current] + EntriesFrom([], ts[1..])
    else EntriesFrom(current + [ts[0]], ts[1..])
  }

  function Entries(ts: seq<string>): seq<Entry> {
    EntriesFrom([], ts)
  }

  function JoinEntries(es: seq<Entry>): seq<string> {
    if es == [] then []
    else if |es| == 1 then es[0]
    else es[0] + [","] + JoinEntries(es[1..])
  }

  predicate IsReadOnly(e: Entry) {
    e != [] && EqIgnoreCase(e[0], "READ_ONLY")
  }

  /** The entries that survive: neither empty nor a configured READ_ONLY. */
  function Kept(es: seq<Entry>): seq<Entry> {
    if es == [] then []
    else (if es[0] == [] || IsReadOnly(es[0]) then [] else [es[0]]) + Kept(es[1..])
  }

  /** The tokens between the first and the last one. */
  function Inner(ts: seq<string>): seq<string> {
    if |ts| >= 2 then ts[1..|ts| - 1] else []
  }

  /** The entries of an option block. */
  function BlockEntries(options: string): seq<Entry> {
    Entries(Inner(Tokenize(Trim(options))))
  }

  function BlockTokens(es: seq<Entry>): seq<string> {
    ["("] + JoinEntries(es) + [")"]
  }

  function ReadOnlyEntries(options: string): seq<Entry> {
    Kept(BlockEntries(options)) + [["READ_ONLY"]]
  }

  function EnforceReadOnly(options: string): string {
    if Trim(options) == "" then "(READ_ONLY)"
    else Rebuild(BlockTokens(ReadOnlyEntries(options)))
  }

  // --- Entries and their joined tokens are the same information ---

  predicate PlainEntry(e: Entry) {
    e != [] && "," !in e
  }

  lemma {:induction false} EntriesOfEntry(current: Entry, e: Entry, rest: seq<string>)
    requires "," !in e
    ensures EntriesFrom(current, e + rest) == EntriesFrom(current + e, rest)
    decreases |e|
  {
    if e == [] {
      assert e + rest == rest && current + e == current;
    } else {
      assert (e + rest)[1..] == e[1..] + rest && (e + rest)[0] == e[0];
      assert e[0] in e && "," !in e[1..];
      EntriesOfEntry(current + [e[0]], e[1..], rest);
      assert current + [e[0]] + e[1..] == current + e;
    }
  }

  lemma {:induction false} EntriesJoin(es: seq<Entry>)
    requires es != [] && forall e :: e in es ==> PlainEntry(e)
    ensures Entries(JoinEntries(es)) == es
  {
    assert es[0] in es;
    if |es| == 1 {
      EntriesOfEntry([], es[0], []);
      assert es[0] + [] == es[0] && [] + es[0] == es[0];
    } else {
      var rest := JoinEntries(es[1..]);
      EntriesJoin(es[1..]);
      assert es[0] + [","] + rest == es[0] + ([","] + rest);
      EntriesOfEntry([], es[0], [","] + rest);
      assert [] + es[0] == es[0] && ([","] + rest)[1..] == rest;
    }
  }

  lemma {:induction false} EntriesPlain(current: Entry, ts: seq<string>)
    requires forall t :: t in current ==> t != ","
    ensures forall e, t :: e in EntriesFrom(current, ts) && t in e ==> t != "," && (t in current || t in ts)
    decreases |ts|
  {
    if ts != [] {
      if ts[0] == "," {
        EntriesPlain([], ts[1..]);
      } else {
        EntriesPlain(current + [ts[0]], ts[1..]);
      }
    }
  }

  lemma {:induction false} KeptPlain(es: seq<Entry>)
    ensures forall e :: e in Kept(es) ==> e in es && e != [] && !IsReadOnly(e)
  {
    if es != [] {
      KeptPlain(es[1..]);
    }
  }

  lemma {:induction false} KeptKept(es: seq<Entry>)
    requires forall e :: e in es ==> e != [] && !IsReadOnly(e)
    ensures Kept(es) == es
  {
    if es != [] {
      assert es[0] in es && forall e :: e in es[1..] ==> e in es;
      KeptKept(es[1..]);
    }
  }

  lemma {:induction false} KeptConcat(a: seq<Entry>, b: seq<Entry>)
    ensures Kept(a + b) == Kept(a) + Kept(b)
  {
    if a == [] {
      assert a + b == b;
    } else {
      assert (a + b)[1..] == a[1..] + b;
      KeptConcat(a[1..], b);
    }
  }

  lemma {:induction false} JoinTokens(es: seq<Entry>)
    ensures forall t :: t in JoinEntries(es) ==> t == "," || exists e :: e in es && t in e
  {
    if |es| > 1 {
      JoinTokens(es[1..]);
    }
  }

  // --- The rewritten block ---

  /** A token that may stand anywhere in a block. */
  predicate BlockToken(t: string) {
    Token(t) && Closed(t)
  }

  lemma {:induction false} ConstantTokens()
    ensures BlockToken("(") && BlockToken(")") && BlockToken(",") && BlockToken("READ_ONLY")
  {
    assert "(" + " " == "( " && ")" + " " == ") " && "," + " " == ", ";
    BareWord("READ_ONLY");
  }

  lemma {:induction false} BareLengthWord(w: string)
    requires forall c :: c in w ==> !IsDelimiter(c)
    ensures BareLength(w) == |w|
  {
    if w != "" {
      BareLengthWord(w[1..]);
    }
  }

  lemma {:induction false} BareWord(w: string)
    requires w != "" && forall c :: c in w ==> !IsDelimiter(c)
    ensures BlockToken(w)
  {
    BareLengthWord(w);
    assert w + "" == w;
    ClosedIfFollowed(w, "");
  }

  lemma {:induction false} LetterLiteral(c: char)
    requires !IsQuote(c)
    ensures var t := ['\'', c, '\'']; t == Quote([c], '\'') && BlockToken(t) && Unquote(t) == [c]
  {
    assert [c][1..] == "" && Double([c], '\'') == [c];
    QuoteClosedToken([c], '\'');
    UnquoteQuote([c], '\'');
  }

  /** The rewritten block holds only its own punctuation, the flag, and tokens it was given. */
  lemma {:induction false} BlockTokenSource(options: string)
    ensures forall t :: t in BlockTokens(ReadOnlyEntries(options)) ==>
              t in {"(", ")", ",", "READ_ONLY"} || t in Inner(Tokenize(Trim(options)))
    ensures forall e :: e in ReadOnlyEntries(options) ==> PlainEntry(e)
  {
    var inner := Inner(Tokenize(Trim(options)));
    EntriesPlain([], inner);
    KeptPlain(Entries(inner));
    JoinTokens(ReadOnlyEntries(options));
    hide Tokenize, Trim, Inner, Entries, JoinEntries, Kept;
    forall t | t in BlockTokens(ReadOnlyEntries(options))
      ensures t in {"(", ")", ",", "READ_ONLY"} || t in inner
    {
      if t in JoinEntries(ReadOnlyEntries(options)) && t != "," {
        var e :| e in ReadOnlyEntries(options) && t in e;
        assert e in Kept(BlockEntries(options)) || e == ["READ_ONLY"];
      }
    }
  }

  /** Every token of the rewritten block is closed: the only token that can be
      unterminated is the last one, which the rewrite drops. */
  lemma {:induction false} ReadOnlyTokens(options: string)
    ensures forall t :: t in BlockTokens(ReadOnlyEntries(options)) ==> BlockToken(t)
    ensures forall e :: e in ReadOnlyEntries(options) ==> PlainEntry(e)
  {
    TokenizeValid(Trim(options));
    assert forall t :: t in Inner(Tokenize(Trim(options))) ==> BlockToken(t);
    BlockTokenSource(options);
    ConstantTokens();
  }

  lemma {:induction false} EnforceTokens(options: string)
    ensures Tokenize(EnforceReadOnly(options))
         == if Trim(options) == "" then ["(", "READ_ONLY", ")"] else BlockTokens(ReadOnlyEntries(options))
  {
    if Trim(options) == "" {
      ConstantTokens();
      var ts := ["(", "READ_ONLY", ")"];
      TokenizeRebuild(ts);
      RebuildFlag();
    } else {
      ReadOnlyTokens(options);
      var ts := BlockTokens(ReadOnlyEntries(options));
      assert forall i :: 0 <= i < |ts| ==> ts[i] in ts;
      TokenizeRebuild(ts);
    }
  }

  lemma {:induction false} RebuildFlag()
    ensures Rebuild(["(", "READ_ONLY", ")"]) == "(READ_ONLY)"
  {
    assert Tail("READ_ONLY", [")"]) == ")";
    assert Tail("(", ["READ_ONLY", ")"]) == "READ_ONLY)";
  }

  lemma {:induction false} TailEnd(prev: string, ts: seq<string>)
    requires ts != [] && ts[|ts| - 1] == ")"
    ensures Tail(prev, ts) != "" && Tail(prev, ts)[|Tail(prev, ts)| - 1] == ')'
    decreases |ts|
  {
    if |ts| == 1 {
      assert Tail(prev, ts) == ")";
    } else {
      TailEnd(ts[0], ts[1..]);
    }
  }

  /** The rewritten block begins with `(` and ends with `)`. */
  lemma {:induction false} EnforceShape(options: string)
    ensures var out := EnforceReadOnly(options);
            out != "" && out[0] == '(' && out[|out| - 1] == ')' && Trim(out) == out
  {
    if Trim(options) != "" {
      TailEnd("(", BlockTokens(ReadOnlyEntries(options))[1..]);
    }
    TrimIdentity(EnforceReadOnly(options));
  }

  /** The rewrite keeps every other entry, in order, and ends with one bare READ_ONLY. */
  lemma {:induction false} EnforceEntries(options: string)
    ensures BlockEntries(EnforceReadOnly(options))
         == (if Trim(options) == "" then [] else Kept(BlockEntries(options))) + [["READ_ONLY"]]
  {
    EnforceTokens(options);
    EnforceShape(options);
    if Trim(options) == "" {
      assert Inner(["(", "READ_ONLY", ")"]) == ["READ_ONLY"];
      EntriesJoin([["READ_ONLY"]]);
    } else {
      ReadOnlyTokens(options);
      var es := ReadOnlyEntries(options);
      assert Inner(BlockTokens(es)) == JoinEntries(es);
      EntriesJoin(es);
    }
  }

  /** Exactly one entry of the result names READ_ONLY: the last, with no value. */
  lemma {:induction false} EnforceSingleFlag(options: string, i: nat)
    requires i < |BlockEntries(EnforceReadOnly(options))|
    ensures var es := BlockEntries(EnforceReadOnly(options));
            && (IsReadOnly(es[i]) <==> i == |es| - 1)
            && (i == |es| - 1 ==> es[i] == ["READ_ONLY"])
  {
    EnforceEntries(options);
    KeptPlain(BlockEntries(options));
    var es := BlockEntries(EnforceReadOnly(options));
    if i < |es| - 1 {
      assert es[i] in Kept(BlockEntries(options));
    }
  }

  lemma {:induction false} KeptFlagged(es: seq<Entry>)
    ensures Kept(Kept(es) + [["READ_ONLY"]]) == Kept(es)
  {
    KeptPlain(es);
    KeptKept(Kept(es));
    KeptConcat(Kept(es), [["READ_ONLY"]]);
    assert Kept([["READ_ONLY"]]) == [];
  }

  lemma {:induction false} ReadOnlyEntriesStable(options: string)
    ensures ReadOnlyEntries(EnforceReadOnly(options))
         == if Trim(options) == "" then [["READ_ONLY"]] else ReadOnlyEntries(options)
  {
    EnforceEntries(options);
    if Trim(options) == "" {
      KeptFlagged([]);
      assert [] + [["READ_ONLY"]] == [["READ_ONLY"]];
    } else {
      KeptFlagged(BlockEntries(options));
    }
  }

  lemma {:induction false} EnforceIdempotent(options: string)
    ensures EnforceReadOnly(EnforceReadOnly(options)) == EnforceReadOnly(options)
  {
    EnforceShape(options);
    ReadOnlyEntriesStable(options);
    RebuildFlag();
    hide Trim, ReadOnlyEntries, Rebuild;
    assert BlockTokens([["READ_ONLY"]]) == ["(", "READ_ONLY", ")"];
  }
}
