/**
 A configuration that loses its data root when it is normalised for reading.

 Its option block has a single entry, which begins with READ_ONLY and goes on with DATA_PATH and
 a quoted directory: there is no comma between the two options. Looked at token by token the
 block names the directory as the root; looked at entry by entry it has one READ_ONLY option with
 something behind it. The rewrite drops the entry whole, and the statement that is printed names
 no root. The tokens, the text and the entries of the configuration are worked out one after the
 other, and the loss is then read off the general theorem.
 */
module RootedPaths {
  import opened Ascii
  import opened Sequences
  import opened Wrappers
  import opened Tokens
  import opened Options
  import opened Attach
  import opened AttachComments
  import opened CodeTexts
  import opened DataPaths

  /** A configuration that loses its root. */
  const ROOTED := "ATTACH 'x' (READ_ONLY DATA_PATH 'd')"

  const WORDS: seq<string> := ["ATTACH", "'x'", "(", "READ_ONLY", "DATA_PATH", "'d'", ")"]

  const BLOCK: seq<string> := ["(", "READ_ONLY", "DATA_PATH", "'d'", ")"]

  lemma {:induction false} WordsAreTokens()
    ensures forall i :: 0 <= i < |WORDS| ==> BlockToken(WORDS[i])
    ensures WORDS[2..] == BLOCK
  {
    BareWord("ATTACH");
    BareWord("DATA_PATH");
    ConstantTokens();
    LetterLiteral('x');
    LetterLiteral('d');
    hide Token, Closed;
  }

  lemma {:induction false} BlockTail()
    ensures Tail("(", ["READ_ONLY", "DATA_PATH", "'d'", ")"]) == "READ_ONLY DATA_PATH 'd')"
  {
    assert Tail("'d'", [")"]) == ")";
    hide Tail;
    var r3 := ["'d'", ")"];
    assert r3[1..] == [")"];
    LongTail("DATA_PATH", r3);
    assert Tail("DATA_PATH", r3) == " 'd')";
    var r2 := ["DATA_PATH", "'d'", ")"];
    assert r2[1..] == r3;
    LongTail("READ_ONLY", r2);
    var r1 := ["READ_ONLY", "DATA_PATH", "'d'", ")"];
    assert r1[1..] == r2;
    LongTail("(", r1);
  }

  lemma {:induction false} PathTail()
    ensures Tail("'x'", BLOCK) == " (READ_ONLY DATA_PATH 'd')"
  {
    BlockTail();
    hide Tail;
    assert BLOCK[0] == "(" && BLOCK[1..] == ["READ_ONLY", "DATA_PATH", "'d'", ")"];
    hide BLOCK;
    LongTail("'x'", BLOCK);
    assert Separator("'x'", "(") == " ";
    assert " " + "(" + "READ_ONLY DATA_PATH 'd')" == " (READ_ONLY DATA_PATH 'd')";
  }

  lemma {:induction false} PathText(ts: seq<string>, tail: string)
    requires |ts| >= 2 && ts[0] == "ATTACH" && ts[1] == "'x'" && Tail("'x'", ts[2..]) == tail
    ensures Rebuild(ts) == "ATTACH 'x'" + tail
  {
    hide Tail;
    LongTail("ATTACH", ts[1..]);
    assert ts[1..][1..] == ts[2..];
    assert "ATTACH" + (" " + "'x'") == "ATTACH 'x'";
    ConcatAssoc("ATTACH", " " + "'x'", tail);
  }

  lemma {:induction false} RootedText()
    ensures Rebuild(WORDS) == ROOTED
  {
    hide WORDS, BLOCK, ROOTED, Tail;
    PathTail();
    WordsBlock();
    RootedParts();
    PathText(WORDS, " (READ_ONLY DATA_PATH 'd')");
  }

  lemma {:induction false} WordsBlock()
    ensures WORDS[2..] == BLOCK && |WORDS| >= 2 && WORDS[0] == "ATTACH" && WORDS[1] == "'x'"
  {
  }

  lemma {:induction false} RootedParts()
    ensures ROOTED == "ATTACH 'x'" + " (READ_ONLY DATA_PATH 'd')"
  {
  }

  lemma {:induction false} RootedAlone()
    ensures SingleStatement(ROOTED) == Some(ROOTED)
  {
    hide SingleStatement;
    AloneStatement(ROOTED);
  }

  lemma {:induction false} BlockIsTokens()
    ensures ValidTokens(BLOCK) && Closed("'x'")
  {
    WordsAreTokens();
    WordsBlock();
    assert WORDS[1] == "'x'";
    assert forall i :: 0 <= i < |BLOCK| ==> BLOCK[i] == WORDS[i + 2];
    hide Token, Closed, WORDS, BLOCK;
  }

  lemma {:induction false} RootedTokens()
    ensures Tokenize(ROOTED) == WORDS
  {
    WordsAreTokens();
    RootedText();
    hide Token, Closed, Rebuild, Tokenize, WORDS, ROOTED;
    TokenizeRebuild(WORDS);
  }

  lemma {:induction false} RootedParses()
    ensures ParseAttach(ROOTED) == Some(ParsedAttach("'x'", Rebuild(BLOCK)))
  {
    RootedTokens();
    WordsBlock();
    assert WORDS[0] == "ATTACH" && WORDS[1] == "'x'" && WORDS[2] == "(";
    hide ParseTokens, Rebuild, Tokenize, ROOTED, Closed, ValidTokens;
    QuotedPathParses(WORDS);
  }

  lemma {:induction false} RootedEntries()
    ensures BlockEntries(Rebuild(BLOCK)) == [["READ_ONLY", "DATA_PATH", "'d'"]]
    ensures Tokenize(Rebuild(BLOCK)) == BLOCK && BlockText(Rebuild(BLOCK)) && Trim(Rebuild(BLOCK)) == Rebuild(BLOCK)
  {
    BlockIsTokens();
    hide Trim, Rebuild, ValidTokens, Tokenize, Closed;
    TokenizeRebuild(BLOCK);
    BlockTrimmed(BLOCK);
    RootedEntry();
  }

  lemma {:induction false} RootedEntry()
    ensures Entries(Inner(BLOCK)) == [["READ_ONLY", "DATA_PATH", "'d'"]]
  {
    var e := ["READ_ONLY", "DATA_PATH", "'d'"];
    assert Inner(BLOCK) == e;
    hide EntriesFrom;
    EntriesJoin([e]);
  }

  /** It names the root `d`, and read-only it is normalised to a statement that does not. */
  lemma {:induction false} RootIsLostIn(name: string)
    ensures DataPath(ROOTED) == Some("d")
    ensures Normalize(ROOTED, name, true).Some? && DataPath(Normalize(ROOTED, name, true).value) != Some("d")
  {
    RootedAlone();
    RootedParses();
    BlockIsTokens();
    RootedEntries();
    LetterLiteral('d');
    assert EqIgnoreCase("'x'", "DATABASE") == false by {
      QuotedStartNoKeyword("'x'", "DATABASE");
    }
    hide ROOTED, BLOCK, Rebuild, Tokenize, Trim, Closed, Token, Normalize, SingleStatement, ParseAttach, DataPathIn,
         PathOf, RootKept;
    RootIsLost("'d'", LastOf(Rebuild(BLOCK)));
    BlockPath(Rebuild(BLOCK));
    AcceptedIff(ROOTED, name, true);
    NormalizeKeepsDataPath(ROOTED, name, true);
  }
}
