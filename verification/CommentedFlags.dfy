/**
 A configuration whose read-only normalised statement has the flag inside a comment.

 It is a path with an option block and a line comment behind it. The parser takes all tokens
 from the opening parenthesis on for the block, the last of them for its closing parenthesis,
 and the rest for one entry, which thus holds the real parenthesis and the two dashes. The
 rewrite keeps that entry and prints the flag behind it on the same line, so that for a reader
 that skips comments the statement ends with the dashes, and its options are those configured.
 The tokens, the text and the entries are worked out one after the other.
 */
module CommentedFlags {
  import opened Ascii
  import opened Lexemes
  import opened Statements
  import opened Wrappers
  import opened Tokens
  import opened Options
  import opened Attach
  import opened AttachComments
  import opened CodeTexts
  import opened ReadOnlyFlags

  /** The configuration, and its rewritten options. */
  const COMMENTED := "ATTACH 'x' (A) -- c"

  const REWRITTEN := "(A) --, READ_ONLY)"

  const WORDS: seq<string> := ["ATTACH", "'x'", "(", "A", ")", "--", "c"]

  lemma {:induction false} WordsAreTokens()
    ensures forall i :: 0 <= i < |WORDS| ==> BlockToken(WORDS[i])
  {
    BareWord("ATTACH");
    BareWord("A");
    BareWord("--");
    BareWord("c");
    ConstantTokens();
    LetterLiteral('x');
    hide Token, Closed;
  }

  lemma {:induction false} CommentedTokens()
    ensures Tokenize(COMMENTED) == WORDS && ValidTokens(WORDS) && ValidTokens(WORDS[2..])
  {
    WordsAreTokens();
    RebuildCommented();
    hide Token, Closed, Tokenize, Rebuild;
    TokenizeRebuild(WORDS);
  }

  lemma {:induction false} RebuildCommented()
    ensures Rebuild(WORDS) == COMMENTED
  {
    assert WORDS[1..] == ["'x'", "(", "A", ")", "--", "c"];
    assert WORDS[1..][1..] == ["(", "A", ")", "--", "c"];
    TailBlock("'x'");
    assert Tail("ATTACH", WORDS[1..]) == " 'x'" + Tail("'x'", ["(", "A", ")", "--", "c"]);
  }

  lemma {:induction false} TailBlock(prev: string)
    requires prev != "("
    ensures Tail(prev, ["(", "A", ")", "--", "c"]) == " (A) -- c"
  {
    assert ["(", "A", ")", "--", "c"][1..] == ["A", ")", "--", "c"] && ["A", ")", "--", "c"][1..] == [")", "--", "c"];
    assert [")", "--", "c"][1..] == ["--", "c"] && ["--", "c"][1..] == ["c"] && ["c"][1..] == [];
    assert Tail("--", ["c"]) == " c";
    assert Tail(")", ["--", "c"]) == " -- c";
    assert Tail("A", [")", "--", "c"]) == ") -- c";
    assert Tail("(", ["A", ")", "--", "c"]) == "A) -- c";
  }

  lemma {:induction false} CommentedAlone()
    ensures SingleStatement(COMMENTED) == Some(COMMENTED)
  {
    hide SingleStatement;
    AloneStatement(COMMENTED);
  }

  const BLOCK: seq<string> := ["(", "A", ")", "--", "c"]

  lemma {:induction false} BlockOfWords()
    ensures WORDS[2..] == BLOCK && |WORDS| > 2 && WORDS[0] == "ATTACH" && WORDS[1] == "'x'" && WORDS[2] == "("
  {
  }

  lemma {:induction false} CommentedParses()
    ensures ParseAttach(COMMENTED) == Some(ParsedAttach("'x'", Rebuild(BLOCK)))
  {
    CommentedTokens();
    BlockOfWords();
    hide Tokenize, Rebuild, ParseTokens, WORDS, BLOCK, COMMENTED, ValidTokens;
    assert IsQuote("'x'"[0]);
    QuotedPathParses(WORDS);
  }

  lemma {:induction false} OneEntry(e: Entry)
    requires e != [] && "," !in e && !EqIgnoreCase(e[0], "READ_ONLY")
    ensures Entries(e) == [e] && Kept([e]) == [e]
  {
    EntriesJoin([e]);
    assert [e][1..] == [];
  }

  const KEPT: seq<string> := ["(", "A", ")", "--", ",", "READ_ONLY", ")"]

  lemma {:induction false} KeptTokens()
    ensures BlockTokens([["A", ")", "--"]] + [["READ_ONLY"]]) == KEPT
  {
    var es := [["A", ")", "--"]] + [["READ_ONLY"]];
    assert es[1..] == [["READ_ONLY"]];
    assert JoinEntries(es[1..]) == ["READ_ONLY"];
  }

  lemma {:induction false} BlockInner()
    ensures Inner(BLOCK) == ["A", ")", "--"] && BLOCK[0] == "(" && BLOCK[|BLOCK| - 1] == "c"
  {
  }

  lemma {:induction false} LetterIsNoFlag()
    ensures !EqIgnoreCase("A", "READ_ONLY")
  {
    assert Lower("A")[0] == 'a' && Lower("READ_ONLY")[0] == 'r';
  }

  /** The kept entries of its block: the closing parenthesis and the dashes are in the first. */
  lemma {:induction false} CommentedEntries()
    ensures var options := Rebuild(BLOCK);
            Trim(options) == options != "" && BlockTokens(ReadOnlyEntries(options)) == KEPT
  {
    CommentedTokens();
    BlockOfWords();
    BlockInner();
    LetterIsNoFlag();
    KeptTokens();
    hide Tokenize, Trim, ValidTokens, Tail, JoinEntries, BLOCK, WORDS, KEPT, EqIgnoreCase, Entries, Kept, Inner,
         BlockTokens;
    assert Rebuild(BLOCK)[0] == '(';
    hide Rebuild;
    TokenizeRebuild(BLOCK);
    BlockTrimmed(BLOCK);
    OneEntry(["A", ")", "--"]);
  }

  lemma {:induction false} FlagTail()
    ensures Tail("--", [",", "READ_ONLY", ")"]) == ", READ_ONLY)"
  {
    var flag := ["READ_ONLY", ")"];
    assert flag[1..] == [")"];
    assert Tail("READ_ONLY", [")"]) == ")";
    hide Tail;
    LongTail(",", flag);
    assert Tail(",", flag) == " READ_ONLY)";
    assert [",", "READ_ONLY", ")"][1..] == flag;
    LongTail("--", [",", "READ_ONLY", ")"]);
  }

  lemma {:induction false} DashesTail()
    ensures Tail(")", ["--", ",", "READ_ONLY", ")"]) == " --, READ_ONLY)"
  {
    FlagTail();
    hide Tail;
    assert ["--", ",", "READ_ONLY", ")"][1..] == [",", "READ_ONLY", ")"];
    LongTail(")", ["--", ",", "READ_ONLY", ")"]);
  }

  lemma {:induction false} RebuildKept()
    ensures Rebuild(KEPT) == REWRITTEN
  {
    DashesTail();
    hide Tail;
    var r2 := [")", "--", ",", "READ_ONLY", ")"];
    assert r2[1..] == ["--", ",", "READ_ONLY", ")"];
    LongTail("A", r2);
    assert Tail("A", r2) == ") --, READ_ONLY)";
    var r1 := KEPT[1..];
    assert r1[0] == "A" && r1[1..] == r2;
    LongTail("(", r1);
    assert Tail("(", r1) == "A) --, READ_ONLY)";
  }

  lemma {:induction false} NoNewlines()
    ensures OpensLine("--") && NoNewline("--") && NoNewline(",") && NoNewline("READ_ONLY") && NoNewline(")")
  {
  }

  lemma {:induction false} LetterIsCommentFree()
    ensures CommentFree("A")
  {
    CodeWord("A");
    hide Lex;
  }

  lemma {:induction false} KeptIsCommented()
    ensures CommentedAt(KEPT, 3) && KEPT[..3] == ["(", "A", ")"]
  {
    OwnTokens();
    LetterIsCommentFree();
    NoNewlines();
    hide CommentFree, NoNewline, OpensLine;
    assert KEPT[0] == "(" && KEPT[1] == "A" && KEPT[2] == ")" && KEPT[3] == "--";
    assert KEPT[4] == "," && KEPT[5] == "READ_ONLY" && KEPT[6] == ")";
  }

  lemma {:induction false} CommentedRewrite()
    ensures EnforceReadOnly(Rebuild(BLOCK)) == REWRITTEN && Tokenize(Strip(REWRITTEN)) == ["(", "A", ")"]
  {
    CommentedEntries();
    RebuildKept();
    KeptIsCommented();
    hide REWRITTEN, KEPT, BLOCK, Rebuild, BlockTokens, ReadOnlyEntries, CommentedAt, Tokenize, Trim, Strip;
    FlagIsHidden(Rebuild(BLOCK), 3);
  }

  lemma {:induction false} CommentedNormalizes(name: string)
    ensures Normalize(COMMENTED, name, true) == Some(Print("'x'", name, REWRITTEN))
  {
    CommentedAlone();
    CommentedParses();
    CommentedRewrite();
    hide COMMENTED, REWRITTEN, BLOCK, Rebuild, Tokenize, Trim, Strip, SingleStatement, ParseAttach, Print,
         EnforceReadOnly, Keyword;
    AcceptedIff(COMMENTED, name, true);
  }

  /** Its read-only normalised statement, and what of it is left without comments: the same
      ATTACH with the options `(A)`. */
  lemma {:induction false} CommentHidesFlag(name: string)
    ensures Normalize(COMMENTED, name, true) == Some(Print("'x'", name, REWRITTEN))
    ensures Strip(Print("'x'", name, REWRITTEN)) == Print("'x'", name, Strip(REWRITTEN))
    ensures Tokenize(Strip(REWRITTEN)) == ["(", "A", ")"]
  {
    CommentedNormalizes(name);
    CommentedRewrite();
    QuotedX();
    TokenizeEmpty();
    assert REWRITTEN != "";
    hide COMMENTED, REWRITTEN, Tokenize, Strip, Print, Closed, CommentFree, Normalize, EnforceReadOnly;
    PrintComments("'x'", name, REWRITTEN);
  }

  lemma {:induction false} QuotedX()
    ensures Closed("'x'") && CommentFree("'x'")
  {
    LetterLiteral('x');
    hide Closed, Token;
    CodeQuoted("'x'");
  }
}
