/** The data root an ATTACH statement names, and what normalising does to it. */
module DataPaths {
  import opened Ascii
  import opened Wrappers
  import opened Tokens
  import opened Options
  import opened Attach

  /** The token after the first DATA_PATH, unquoted. */
  function DataPathIn(tokens: seq<string>): Option<string> {
    if |tokens| < 2 then None
    else if EqIgnoreCase(tokens[0], "DATA_PATH") then Some(Unquote(tokens[1]))
    else DataPathIn(tokens[1..])
  }

  function DataPath(statement: string): Option<string> {
    var parsed := ParseAttach(statement);
    if parsed.None? then None else DataPathIn(Tokenize(parsed.value.options))
  }

  // --- Entry by entry ---

  /** The root an entry names when the token `follow` comes after it. */
  function EntryPath(e: Entry, follow: string): Option<string> {
    DataPathIn(e + [follow])
  }

  /** The root that entries name, the last one being followed by `last`. */
  function PathOf(es: seq<Entry>, last: string): Option<string> {
    if es == [] then None
    else
      var path := EntryPath(es[0], if |es| > 1 then "," else last);
      if path.Some? then path else PathOf(es[1..], last)
  }

  /** The root of the first entry that stays and names one. */
  function FirstRoot(es: seq<Entry>): Option<string> {
    if es == [] then None
    else if es[0] != [] && !IsReadOnly(es[0]) && EntryPath(es[0], ",").Some? then EntryPath(es[0], ",")
    else FirstRoot(es[1..])
  }

  /** The root stays when the entries that name READ_ONLY are taken out and a flag is added:
      the entry that names it stays, and holds its value or was followed by a comma before; or
      its entry goes, and the first one left that names a root names the same. */
  predicate RootKept(es: seq<Entry>, last: string) {
    if es == [] then true
    else
      var path := EntryPath(es[0], if |es| > 1 then "," else last);
      if path.None? then RootKept(es[1..], last)
      else if IsReadOnly(es[0]) then FirstRoot(es[1..]) == path
      else EntryPath(es[0], ",") == path
  }

  lemma {:induction false} PathInPrefix(e: seq<string>, follow: string, rest: seq<string>)
    requires !EqIgnoreCase(follow, "DATA_PATH")
    ensures DataPathIn(e + ([follow] + rest))
         == if DataPathIn(e + [follow]).Some? then DataPathIn(e + [follow]) else DataPathIn(rest)
  {
    if e == [] {
      assert e + ([follow] + rest) == [follow] + rest && e + [follow] == [follow];
      assert ([follow] + rest)[1..] == rest;
    } else {
      assert (e + ([follow] + rest))[1..] == e[1..] + ([follow] + rest);
      assert (e + [follow])[1..] == e[1..] + [follow];
      PathInPrefix(e[1..], follow, rest);
    }
  }

  /** Whether an entry names a root does not depend on what follows it. */
  lemma {:induction false} NamesAnyway(e: seq<string>, f: string, g: string)
    ensures DataPathIn(e + [f]).Some? <==> DataPathIn(e + [g]).Some?
  {
    if e != [] {
      assert (e + [f])[1..] == e[1..] + [f] && (e + [g])[1..] == e[1..] + [g];
      NamesAnyway(e[1..], f, g);
    }
  }

  lemma {:induction false} NotDataPath()
    ensures !EqIgnoreCase(",", "DATA_PATH") && !EqIgnoreCase("(", "DATA_PATH")
    ensures !EqIgnoreCase("READ_ONLY", "DATA_PATH")
  {
    assert Lower(",") == "," && Lower("(") == "(";
    assert Lower("READ_ONLY")[0] == 'r' && Lower("DATA_PATH")[0] == 'd';
  }

  /** The tokens of a block name the root that its entries name. */
  lemma {:induction false} JoinedPath(es: seq<Entry>, last: string)
    requires es != []
    ensures DataPathIn(JoinEntries(es) + [last]) == PathOf(es, last)
  {
    NotDataPath();
    if |es| == 1 {
      assert PathOf(es[1..], last) == None;
    } else {
      var rest := JoinEntries(es[1..]) + [last];
      JoinedPath(es[1..], last);
      assert JoinEntries(es) + [last] == es[0] + ([","] + rest);
      hide DataPathIn, JoinEntries;
      PathInPrefix(es[0], ",", rest);
    }
  }

  /** After the rewrite: the kept entries name the root, each followed by a comma. */
  lemma {:induction false} FlaggedPath(es: seq<Entry>)
    ensures PathOf(es + [["READ_ONLY"]], ")") == PathOf(es, ",")
  {
    var flag := ["READ_ONLY"];
    var all := es + [flag];
    if es == [] {
      NotDataPath();
      assert all == [flag] && all[1..] == [];
      assert flag + [")"] == ["READ_ONLY", ")"] && ["READ_ONLY", ")"][1..] == [")"];
    } else {
      FlaggedPath(es[1..]);
      assert all[0] == es[0] && all[1..] == es[1..] + [flag];
      hide DataPathIn;
    }
  }

  /** What is kept, with the flag behind it, names the first root that stays. */
  lemma {:induction false} KeptRoot(es: seq<Entry>)
    ensures PathOf(Kept(es), ",") == FirstRoot(es)
  {
    if es != [] {
      var e, rest := es[0], es[1..];
      KeptRoot(rest);
      hide DataPathIn;
      if e == [] || IsReadOnly(e) {
        assert [] + Kept(rest) == Kept(rest);
      } else {
        assert Kept(es)[0] == e && Kept(es)[1..] == Kept(rest);
      }
    }
  }

  /** Exactly when the kept entries name the same root. */
  lemma {:induction false} KeptPath(es: seq<Entry>, last: string)
    ensures PathOf(Kept(es), ",") == PathOf(es, last) <==> RootKept(es, last)
  {
    if es != [] {
      var e, follow := es[0], if |es| > 1 then "," else last;
      NamesAnyway(e, follow, ",");
      KeptPath(es[1..], last);
      KeptRoot(es[1..]);
      if e == [] {
        assert e + [follow] == [follow] && [follow][1..] == [];
        assert [] + Kept(es[1..]) == Kept(es[1..]);
      } else if IsReadOnly(e) {
        assert [] + Kept(es[1..]) == Kept(es[1..]);
      } else {
        assert Kept(es)[0] == e && Kept(es)[1..] == Kept(es[1..]);
      }
      hide DataPathIn;
    }
  }

  // --- Blocks ---

  /** The last token of a block, which the rewrite does not look at. */
  function LastOf(options: string): string {
    var ts := Tokenize(options);
    if ts == [] then "" else ts[|ts| - 1]
  }

  lemma {:induction false} JoinEntriesOf(current: Entry, ts: seq<string>)
    ensures EntriesFrom(current, ts) != []
    ensures JoinEntries(EntriesFrom(current, ts)) == current + ts
    decreases |ts|
  {
    if ts != [] {
      if ts[0] == "," {
        JoinEntriesOf([], ts[1..]);
        var rest := EntriesFrom([], ts[1..]);
        assert ([current] + rest)[1..] == rest;
        assert current + [","] + ([] + ts[1..]) == current + ts;
      } else {
        JoinEntriesOf(current + [ts[0]], ts[1..]);
        assert current + [ts[0]] + ts[1..] == current + ts;
      }
    } else {
      assert current + ts == current;
    }
  }

  /** A block names the root that its entries name. */
  lemma {:induction false} BlockPath(options: string)
    requires BlockText(options) && Trim(options) == options
    ensures DataPathIn(Tokenize(options)) == PathOf(BlockEntries(options), LastOf(options))
  {
    var ts := Tokenize(options);
    TokenizeEmpty();
    NotDataPath();
    hide Tokenize, Trim, PathOf, TokenEq, EqIgnoreCase;
    if |ts| < 2 {
      LoneBlockPath(options);
    } else {
      assert DataPathIn(ts) == DataPathIn(ts[1..]);
      hide DataPathIn;
      JoinEntriesOf([], Inner(ts));
      JoinedPath(BlockEntries(options), LastOf(options));
      assert [] + Inner(ts) == Inner(ts);
      assert ts[1..] == Inner(ts) + [LastOf(options)];
    }
  }

  lemma {:induction false} LoneBlockPath(options: string)
    requires BlockText(options) && Trim(options) == options && |Tokenize(options)| < 2
    ensures DataPathIn(Tokenize(options)) == PathOf(BlockEntries(options), LastOf(options)) == None
  {
    var ts := Tokenize(options);
    var es: seq<Entry> := [[]];
    NotDataPath();
    TokenizeEmpty();
    hide Tokenize, Trim;
    assert ts == [] || ts == ["("];
    assert Inner(ts) == [] && Entries([]) == es && es[1..] == [];
    assert [] + [LastOf(options)] == [LastOf(options)];
  }

  lemma {:induction false} EnforcedPath(options: string)
    requires BlockText(options) && Trim(options) == options
    ensures DataPathIn(Tokenize(EnforceReadOnly(options))) == PathOf(Kept(BlockEntries(options)), ",")
  {
    var es := if options == "" then [] else Kept(BlockEntries(options));
    EnforceTokens(options);
    TokenizeEmpty();
    hide Tokenize, Trim, EnforceReadOnly, BlockText, Rebuild;
    assert Tokenize(EnforceReadOnly(options)) == BlockTokens(es + [["READ_ONLY"]]);
    FlaggedBlockPath(es);
    if options == "" {
      var none: seq<Entry> := [[]];
      assert none[1..] == [] && BlockEntries(options) == none;
    }
  }

  lemma {:induction false} FlaggedBlockPath(es: seq<Entry>)
    ensures DataPathIn(BlockTokens(es + [["READ_ONLY"]])) == PathOf(es, ",")
  {
    var all := es + [["READ_ONLY"]];
    var block := BlockTokens(all);
    NotDataPath();
    JoinedPath(all, ")");
    FlaggedPath(es);
    hide PathOf, JoinEntries;
    assert block[1..] == JoinEntries(all) + [")"] && block[0] == "(";
  }

  /** The data root of a statement is that of what it normalises to: always as it is, and
      with the read-only rewrite exactly when the entry that names it survives. */
  lemma {:induction false} NormalizeKeepsDataPath(config: string, name: string, readOnly: bool)
    requires Normalize(config, name, readOnly).Some?
    requires Closed(ParseAttach(SingleStatement(config).value).value.path)
    ensures var statement := SingleStatement(config).value;
            var p := ParseAttach(statement).value;
            (DataPath(Normalize(config, name, readOnly).value) == DataPath(statement))
            <==> if EqIgnoreCase(p.path, "DATABASE") then DataPath(statement).None?
                 else readOnly ==> RootKept(BlockEntries(p.options), LastOf(p.options))
  {
    var p := ParseAttach(SingleStatement(config).value).value;
    SingleTrimmed(config);
    ParsedBlock(SingleStatement(config).value);
    if EqIgnoreCase(p.path, "DATABASE") {
      UnreadablePath(p.path, name, p.options, readOnly);
      hide Tokenize, Closed;
    } else {
      var options := p.options;
      NormalizeReadsBack(config, name, readOnly);
      BlockPath(options);
      EnforcedPath(options);
      KeptPath(BlockEntries(options), LastOf(options));
      hide BlockEntries, LastOf, Tokenize, PathOf, RootKept, Kept, BlockText, Closed;
    }
  }

  /** With the path DATABASE the printed statement has no data root, as it does not parse. */
  lemma {:induction false} UnreadablePath(path: string, name: string, options: string, readOnly: bool)
    requires Closed(path) && EqIgnoreCase(path, "DATABASE") && path != "("
    requires BlockText(options) && Trim(options) == options
    ensures ParseAttach(Print(path, name, FinalOptions(options, readOnly))) == None
  {
    FinalBlock(options, readOnly);
    TokenizePrint(path, name, FinalOptions(options, readOnly));
    hide Tokenize, Closed;
    ParsePrintedTokens(path, name, Tokenize(FinalOptions(options, readOnly)));
  }

  /** No entry that names READ_ONLY holds a DATA_PATH token, and no entry ends with one. */
  predicate Undisturbed(es: seq<Entry>) {
    es == [] || (&& (IsReadOnly(es[0]) ==> !HoldsDataPath(es[0]))
                 && (es[0] != [] ==> !EqIgnoreCase(es[0][|es[0]| - 1], "DATA_PATH"))
                 && Undisturbed(es[1..]))
  }

  predicate HoldsDataPath(e: Entry) {
    exists i :: 0 <= i < |e| && EqIgnoreCase(e[i], "DATA_PATH")
  }

  lemma {:induction false} PathInside(e: Entry, f: string, g: string)
    requires e != [] ==> !EqIgnoreCase(e[|e| - 1], "DATA_PATH")
    ensures EntryPath(e, f) == EntryPath(e, g)
    ensures !HoldsDataPath(e) ==> EntryPath(e, f).None?
  {
    if e != [] {
      assert (e + [f])[1..] == e[1..] + [f] && (e + [g])[1..] == e[1..] + [g];
      PathInside(e[1..], f, g);
      if !HoldsDataPath(e) {
        assert forall i :: 0 <= i < |e[1..]| ==> e[1..][i] == e[i + 1];
      }
    }
  }

  /** A condition on the block alone under which the root stays. */
  lemma {:induction false} UndisturbedIsKept(es: seq<Entry>, last: string)
    requires Undisturbed(es)
    ensures RootKept(es, last)
  {
    if es != [] {
      PathInside(es[0], if |es| > 1 then "," else last, ",");
      UndisturbedIsKept(es[1..], last);
    }
  }

  /** The root is lost when the one entry that names it also names READ_ONLY: such as
      `READ_ONLY DATA_PATH 'd'`. */
  lemma {:induction false} RootIsLost(value: string, last: string)
    ensures var es := [["READ_ONLY", "DATA_PATH", value]];
            PathOf(es, last) == Some(Unquote(value)) && PathOf(Kept(es), ",") == None && !RootKept(es, last)
  {
    var e := ["READ_ONLY", "DATA_PATH", value];
    NotDataPath();
    var ts := e + [last];
    assert ts[0] == "READ_ONLY" && ts[1..][0] == "DATA_PATH" && ts[1..][1] == value;
    assert DataPathIn(ts[1..]) == Some(Unquote(value));
    assert EntryPath(e, last) == Some(Unquote(value));
    assert [e][1..] == [] && Kept([e]) == [];
    KeptPath([e], last);
  }
}
