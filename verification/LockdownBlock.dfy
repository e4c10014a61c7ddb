/**
 The text of the lockdown block. Whatever directories it names, the statement splitter cuts
 it into exactly the statements meant: no directory ends its quotes early.

 The block is a list of statements made of fragments: bare text without quotes, dashes,
 slashes or semicolons, and literals with their quotes doubled. Each fragment lexes on its
 own to known lexemes, in any context that does not begin with a quote, so the lexemes of the
 block are those of its fragments one behind the other, and its semicolons are the ones
 printed between its statements.
 */
module LockdownBlock {
  import opened Ascii
  import opened Sequences
  import opened Lexemes
  import opened Statements
  import opened Tokens

  // --- Text made of plain characters and literals ---

  datatype Fragment = Bare(text: string) | Literal(value: string)
  {
    function Text(): string {
      if Bare? then text else Quote(value, '\'')
    }

    function Lexed(): seq<Lexeme> {
      if Bare? then seq(|text|, i requires 0 <= i < |text| => Plain(text[i])) else [Quoted(Quote(value, '\''))]
    }

    /** Plain characters that open nothing and end nothing. */
    predicate Tame() {
      Bare? ==> text != "" && forall i :: 0 <= i < |text| ==> TameChar(text[i])
    }
  }

  predicate TameChar(c: char) {
    !IsQuote(c) && c != ';' && c != '-' && c != '/'
  }

  function TextOf(fs: seq<Fragment>): string {
    if fs == [] then "" else fs[0].Text() + TextOf(fs[1..])
  }

  function LexedOf(fs: seq<Fragment>): seq<Lexeme> {
    if fs == [] then [] else fs[0].Lexed() + LexedOf(fs[1..])
  }

  /** No two literals meet. */
  predicate Separated(fs: seq<Fragment>) {
    && (forall i :: 0 <= i < |fs| ==> fs[i].Tame())
    && (forall i :: 0 <= i < |fs| - 1 ==> fs[i].Bare? || fs[i + 1].Bare?)
  }

  lemma {:induction false} LexTame(w: string, rest: string)
    requires forall i :: 0 <= i < |w| ==> TameChar(w[i])
    ensures Lex(w + rest) == Bare(w).Lexed() + Lex(rest)
  {
    if w == "" {
      assert w + rest == rest;
      assert Bare(w).Lexed() + Lex(rest) == Lex(rest);
    } else {
      var s := w + rest;
      assert s[0] == w[0] && TameChar(w[0]);
      assert First(s) == Plain(w[0]);
      assert s[1..] == w[1..] + rest;
      LexTame(w[1..], rest);
      assert Bare(w).Lexed() == [Plain(w[0])] + Bare(w[1..]).Lexed();
      hide Lex, First, TameChar;
      ConcatAssoc([Plain(w[0])], Bare(w[1..]).Lexed(), Lex(rest));
    }
  }

  lemma {:induction false} LexLiteral(value: string, rest: string)
    requires rest == "" || rest[0] != '\''
    ensures Lex(Quote(value, '\'') + rest) == [Quoted(Quote(value, '\''))] + Lex(rest)
  {
    var t := Quote(value, '\'');
    var s := t + rest;
    QuoteLengthDouble(value, '\'', rest);
    assert s[1..] == Double(value, '\'') + (['\''] + rest);
    assert s[..|t|] == t && s[|t|..] == rest;
    assert First(s) == Quoted(t);
  }

  lemma {:induction false} LexFragments(fs: seq<Fragment>, rest: string)
    requires Separated(fs) && (rest == "" || rest[0] != '\'')
    ensures Lex(TextOf(fs) + rest) == LexedOf(fs) + Lex(rest)
  {
    if fs == [] {
      assert TextOf(fs) + rest == rest && LexedOf(fs) + Lex(rest) == Lex(rest);
    } else {
      var tail := TextOf(fs[1..]) + rest;
      assert fs[0].Tame();
      assert Separated(fs[1..]);
      LexFragments(fs[1..], rest);
      if fs[0].Bare? {
        LexTame(fs[0].text, tail);
      } else {
        NotQuoted(fs, rest);
        LexLiteral(fs[0].value, tail);
      }
      hide Lex, Separated;
      ConcatAssoc(fs[0].Text(), TextOf(fs[1..]), rest);
      ConcatAssoc(fs[0].Lexed(), LexedOf(fs[1..]), Lex(rest));
    }
  }

  /** What follows a literal does not start with a quote. */
  lemma {:induction false} NotQuoted(fs: seq<Fragment>, rest: string)
    requires Separated(fs) && fs != [] && fs[0].Literal? && (rest == "" || rest[0] != '\'')
    ensures var tail := TextOf(fs[1..]) + rest; tail == "" || tail[0] != '\''
  {
    if |fs| > 1 {
      assert fs[1].Bare? && fs[1].Tame();
      assert fs[1..][0] == fs[1];
      assert TextOf(fs[1..])[0] == fs[1].text[0] && TameChar(fs[1].text[0]);
    }
  }

  lemma {:induction false} NoSemi(fs: seq<Fragment>)
    ensures forall i :: 0 <= i < |LexedOf(fs)| ==> !LexedOf(fs)[i].Semi?
  {
    if fs != [] {
      NoSemi(fs[1..]);
    }
  }

  // --- Joining statements ---

  /** Statements with `;` and a newline between them. */
  function JoinStatements(ss: seq<seq<Fragment>>): string {
    if ss == [] then ""
    else if |ss| == 1 then TextOf(ss[0])
    else TextOf(ss[0]) + (";" + ("\n" + JoinStatements(ss[1..])))
  }

  /** The pieces the splitter should find: all but the first start with the newline. */
  function Pieces(ss: seq<seq<Fragment>>, first: bool): seq<seq<Lexeme>> {
    if ss == [] then []
    else [(if first then [] else [Plain('\n')]) + LexedOf(ss[0])] + Pieces(ss[1..], false)
  }

  lemma {:induction false} LexSemi(rest: string)
    ensures Lex(";" + rest) == [Semi] + Lex(rest)
  {
    assert (";" + rest)[1..] == rest;
  }

  lemma {:induction false} LexNewline(rest: string)
    ensures Lex("\n" + rest) == [Plain('\n')] + Lex(rest)
  {
    assert ("\n" + rest)[1..] == rest;
  }

  lemma {:induction false} CutAt(current: seq<Lexeme>, piece: seq<Lexeme>, rest: seq<Lexeme>)
    requires forall i :: 0 <= i < |piece| ==> !piece[i].Semi?
    ensures CutFrom(current, piece + ([Semi] + rest)) == [current + piece] + CutFrom([], rest)
    decreases |piece|
  {
    if piece == [] {
      assert piece + ([Semi] + rest) == [Semi] + rest && ([Semi] + rest)[1..] == rest;
      assert current + piece == current;
    } else {
      var ls := piece + ([Semi] + rest);
      assert ls[0] == piece[0] && ls[1..] == piece[1..] + ([Semi] + rest);
      CutAt(current + [piece[0]], piece[1..], rest);
      assert (current + [piece[0]]) + piece[1..] == current + piece;
    }
  }

  /** The last statement is one piece. */
  lemma {:induction false} CutLast(fs: seq<Fragment>, current: seq<Lexeme>)
    requires Separated(fs) && fs != []
    ensures CutFrom(current, Lex(TextOf(fs))) == [current + LexedOf(fs)]
  {
    NoSemi(fs);
    NonEmpty(fs);
    LexFragments(fs, "");
    assert TextOf(fs) + "" == TextOf(fs) && Lex("") == [] && LexedOf(fs) + [] == LexedOf(fs);
    hide Lex, TextOf, LexedOf, Separated;
    assert forall l :: l in LexedOf(fs) ==> !l.Semi?;
    CutNoSemi(current, LexedOf(fs));
  }

  /** A statement, `;` and a newline are one piece and the start of the next. */
  lemma {:induction false} CutFirst(fs: seq<Fragment>, current: seq<Lexeme>, rest: string)
    requires Separated(fs)
    ensures CutFrom(current, Lex(TextOf(fs) + (";" + ("\n" + rest))))
         == [current + LexedOf(fs)] + CutFrom([Plain('\n')], Lex(rest))
  {
    NoSemi(fs);
    LexFragments(fs, ";" + ("\n" + rest));
    LexSemi("\n" + rest);
    LexNewline(rest);
    hide Lex, TextOf, LexedOf, Separated;
    CutAt(current, LexedOf(fs), [Plain('\n')] + Lex(rest));
    assert ([Plain('\n')] + Lex(rest))[1..] == Lex(rest);
    assert [] + [Plain('\n')] == [Plain('\n')];
  }

  lemma {:induction false} CutBlock(ss: seq<seq<Fragment>>, first: bool)
    requires ss != [] && forall i :: 0 <= i < |ss| ==> Separated(ss[i]) && ss[i] != []
    ensures CutFrom(if first then [] else [Plain('\n')], Lex(JoinStatements(ss))) == Pieces(ss, first)
  {
    var current := if first then [] else [Plain('\n')];
    hide Lex, TextOf, LexedOf, Separated, CutFrom;
    if |ss| == 1 {
      CutLast(ss[0], current);
      assert Pieces(ss[1..], false) == [];
    } else {
      CutBlock(ss[1..], false);
      CutFirst(ss[0], current, JoinStatements(ss[1..]));
    }
  }

  lemma {:induction false} NonEmpty(fs: seq<Fragment>)
    requires Separated(fs) && fs != []
    ensures LexedOf(fs) != []
  {
    assert fs[0].Tame();
  }

  lemma {:induction false} RenderTame(w: string)
    ensures Render(Bare(w).Lexed()) == w
  {
    if w != "" {
      RenderTame(w[1..]);
      assert Bare(w).Lexed() == [Plain(w[0])] + Bare(w[1..]).Lexed();
      RenderCons(Plain(w[0]), Bare(w[1..]).Lexed());
    }
  }

  lemma {:induction false} RenderFragments(fs: seq<Fragment>)
    ensures Render(LexedOf(fs)) == TextOf(fs)
  {
    if fs != [] {
      RenderFragments(fs[1..]);
      RenderConcat(fs[0].Lexed(), LexedOf(fs[1..]));
      if fs[0].Bare? {
        RenderTame(fs[0].text);
      } else {
        assert fs[0].Lexed()[1..] == [];
      }
    }
  }

  // --- The block ---

  function Setting(name: string, value: string): seq<Fragment> {
    [Bare("SET " + name + " = "), Literal(value)]
  }

  function Flag(name: string, value: string): seq<Fragment> {
    [Bare("SET " + name + " = " + value)]
  }

  /** The quoted directories with `, ` between them. */
  function Listed(dirs: seq<string>): seq<Fragment> {
    if dirs == [] then []
    else if |dirs| == 1 then [Literal(dirs[0])]
    else [Literal(dirs[0]), Bare(", ")] + Listed(dirs[1..])
  }

  function Directories(dirs: seq<string>): seq<Fragment> {
    [Bare("SET allowed_directories = [")] + Listed(dirs) + [Bare("]")]
  }

  /** The lockdown block: `listing` are the roots; a writer keeps external access. */
  function Block(scratch: string, size: string, writer: bool, listing: seq<string>): seq<seq<Fragment>> {
    [Setting("enable_profiling", "no_output"),
     Setting("custom_profiling_settings", "{\"OPERATOR_CPU_TIME\": \"true\", \"CPU_TIME_ACTUAL\": \"true\"}"),
     Flag("autoinstall_known_extensions", "false"),
     Flag("autoload_known_extensions", "false"),
     Flag("allow_community_extensions", "false")]
    + (if writer then []
       else
         [Setting("temp_directory", scratch),
          Setting("max_temp_directory_size", size),
          Directories(listing + [scratch]),
          Flag("enable_external_access", "false")])
    + [Flag("lock_configuration", "true")]
  }

  predicate TameText(s: string) {
    forall i :: 0 <= i < |s| ==> TameChar(s[i])
  }

  lemma {:induction false} SettingSeparated(name: string, value: string)
    requires TameText(name)
    ensures Separated(Setting(name, value))
  {
  }

  lemma {:induction false} FlagSeparated(name: string, value: string)
    requires TameText(name) && TameText(value)
    ensures Separated(Flag(name, value))
  {
  }

  lemma {:induction false} ListedSeparated(dirs: seq<string>)
    ensures Separated(Listed(dirs))
    ensures dirs != [] ==> Listed(dirs) != [] && Listed(dirs)[0].Literal? && Listed(dirs)[|Listed(dirs)| - 1].Literal?
  {
    if |dirs| > 1 {
      ListedSeparated(dirs[1..]);
    }
  }

  lemma {:induction false} DirectoriesSeparated(dirs: seq<string>)
    requires dirs != []
    ensures Separated(Directories(dirs))
  {
    ListedSeparated(dirs);
    hide Listed;
  }

  lemma {:induction false} TameNames()
    ensures TameText("enable_profiling") && TameText("custom_profiling_settings")
    ensures TameText("false") && TameText("true")
    ensures TameText("autoinstall_known_extensions") && TameText("autoload_known_extensions")
  {
  }

  lemma {:induction false} MoreTameNames()
    ensures TameText("allow_community_extensions") && TameText("temp_directory") && TameText("max_temp_directory_size")
    ensures TameText("enable_external_access") && TameText("lock_configuration")
  {
  }

  lemma {:induction false} BlockSeparated(scratch: string, size: string, writer: bool, listing: seq<string>)
    ensures forall i :: 0 <= i < |Block(scratch, size, writer, listing)| ==>
              Separated(Block(scratch, size, writer, listing)[i]) && Block(scratch, size, writer, listing)[i] != []
  {
    TameNames();
    MoreTameNames();
    hide TameText, Separated;
    SettingSeparated("enable_profiling", "no_output");
    SettingSeparated("custom_profiling_settings", "{\"OPERATOR_CPU_TIME\": \"true\", \"CPU_TIME_ACTUAL\": \"true\"}");
    FlagSeparated("autoinstall_known_extensions", "false");
    FlagSeparated("autoload_known_extensions", "false");
    FlagSeparated("allow_community_extensions", "false");
    SettingSeparated("temp_directory", scratch);
    SettingSeparated("max_temp_directory_size", size);
    DirectoriesSeparated(listing + [scratch]);
    FlagSeparated("enable_external_access", "false");
    FlagSeparated("lock_configuration", "true");
  }

  lemma {:induction false} PiecesRender(ss: seq<seq<Fragment>>, first: bool)
    ensures |Pieces(ss, first)| == |ss|
    ensures forall i :: 0 <= i < |ss| ==>
              Render(Pieces(ss, first)[i]) == (if first && i == 0 then "" else "\n") + TextOf(ss[i])
  {
    if ss != [] {
      PiecesRender(ss[1..], false);
      RenderFragments(ss[0]);
      RenderConcat([Plain('\n')], LexedOf(ss[0]));
      assert [Plain('\n')][1..] == [] && Render([Plain('\n')]) == "\n";
      assert [] + LexedOf(ss[0]) == LexedOf(ss[0]) && "" + TextOf(ss[0]) == TextOf(ss[0]);
      hide Render, TextOf, LexedOf;
      forall i | 1 <= i < |ss|
        ensures Render(Pieces(ss, first)[i]) == "\n" + TextOf(ss[i])
      {
        assert ss[1..][i - 1] == ss[i] && Pieces(ss, first)[i] == Pieces(ss[1..], false)[i - 1];
      }
    }
  }

  /** The splitter finds the block's statements and no others, whatever text the scratch
      directory, its size and the roots are. */
  lemma {:induction false} BlockSplits(scratch: string, size: string, writer: bool, listing: seq<string>)
    ensures var ss := Block(scratch, size, writer, listing);
            var pieces := Split(JoinStatements(ss));
            && |pieces| == |ss| == (if writer then 6 else 10)
            && forall i :: 0 <= i < |ss| ==> pieces[i] == (if i == 0 then "" else "\n") + TextOf(ss[i])
  {
    var ss := Block(scratch, size, writer, listing);
    BlockSeparated(scratch, size, writer, listing);
    assert |ss| == if writer then 6 else 10;
    hide CutFrom, RenderAll, Cut, JoinStatements;
    hide Block, Lex, TextOf, LexedOf, Separated, Render, Setting, Flag, Directories;
    CutBlock(ss, true);
    PiecesRender(ss, true);
  }

  /** Texts in single quotes, their quotes doubled, with `, ` between them. */
  function Literals(dirs: seq<string>): string {
    if dirs == [] then ""
    else if |dirs| == 1 then Quote(dirs[0], '\'')
    else Quote(dirs[0], '\'') + (", " + Literals(dirs[1..]))
  }

  lemma {:induction false} ListedText(dirs: seq<string>)
    ensures TextOf(Listed(dirs)) == Literals(dirs)
  {
    hide Double;
    if |dirs| == 1 {
      assert Listed(dirs)[1..] == [];
    } else if dirs != [] {
      ListedText(dirs[1..]);
      var fs := Listed(dirs);
      assert fs[1..] == [Bare(", ")] + Listed(dirs[1..]);
      assert fs[1..][1..] == Listed(dirs[1..]);
    }
  }

  lemma {:induction false} TwoFragments(a: Fragment, b: Fragment)
    ensures TextOf([a, b]) == a.Text() + b.Text() && TextOf([a]) == a.Text()
  {
    assert [a, b][1..] == [b] && [b][1..] == [] && [a][1..] == [];
    assert TextOf([b]) == b.Text() + "";
  }

  lemma {:induction false} DirectoriesText(dirs: seq<string>)
    ensures TextOf(Directories(dirs)) == "SET allowed_directories = [" + (Literals(dirs) + "]")
  {
    ListedText(dirs);
    var first, last := [Bare("SET allowed_directories = [")], [Bare("]")];
    TextConcat(first, Listed(dirs) + last);
    TextConcat(Listed(dirs), last);
    TwoFragments(first[0], first[0]);
    TwoFragments(last[0], last[0]);
    hide TextOf, Literals, Listed;
    assert Directories(dirs) == first + (Listed(dirs) + last);
  }

  lemma {:induction false} TextConcat(a: seq<Fragment>, b: seq<Fragment>)
    ensures TextOf(a + b) == TextOf(a) + TextOf(b)
  {
    if a == [] {
      assert a + b == b;
    } else {
      TextConcat(a[1..], b);
      ConsConcat(a, b);
      hide Fragment.Text;
      assert (a + b)[1..] == a[1..] + b;
    }
  }

  lemma {:induction false} SettingText(name: string, value: string)
    ensures TextOf(Setting(name, value)) == "SET " + name + " = " + Quote(value, '\'')
    ensures TextOf(Flag(name, value)) == "SET " + name + " = " + value
  {
    TwoFragments(Bare("SET " + name + " = "), Literal(value));
    TwoFragments(Bare("SET " + name + " = " + value), Literal(value));
    hide TextOf;
  }

  /** What the block says: extensions are not installed, loaded or taken from the community, and
      last the configuration is locked; a non-writer gets its scratch directory and its size,
      exactly the listed roots and the scratch directory, and no external access. */
  lemma {:induction false} BlockSays(scratch: string, size: string, writer: bool, listing: seq<string>)
    ensures var ss := Block(scratch, size, writer, listing);
            && |ss| == (if writer then 6 else 10)
            && TextOf(ss[2]) == "SET " + "autoinstall_known_extensions" + " = " + "false"
            && TextOf(ss[3]) == "SET " + "autoload_known_extensions" + " = " + "false"
            && TextOf(ss[4]) == "SET " + "allow_community_extensions" + " = " + "false"
            && TextOf(ss[|ss| - 1]) == "SET " + "lock_configuration" + " = " + "true"
            && (!writer ==>
                  && TextOf(ss[5]) == "SET " + "temp_directory" + " = " + Quote(scratch, '\'')
                  && TextOf(ss[6]) == "SET " + "max_temp_directory_size" + " = " + Quote(size, '\'')
                  && TextOf(ss[7]) == "SET allowed_directories = [" + (Literals(listing + [scratch]) + "]")
                  && TextOf(ss[8]) == "SET " + "enable_external_access" + " = " + "false")
  {
    hide TextOf, Setting, Flag, Directories, Literals, Quote;
    SettingText("autoinstall_known_extensions", "false");
    SettingText("autoload_known_extensions", "false");
    SettingText("allow_community_extensions", "false");
    SettingText("lock_configuration", "true");
    SettingText("temp_directory", scratch);
    SettingText("max_temp_directory_size", size);
    SettingText("enable_external_access", "false");
    DirectoriesText(listing + [scratch]);
  }
}
