/** The statement splitter, the comment stripper and the keyword scanner, over lexemes. */
module Statements {
  import opened Ascii
  import opened Sequences
  import opened Lexemes
  import opened Wrappers

  // --- Splitting: cut the lexemes at every top-level semicolon ---

  function CutFrom(current: seq<Lexeme>, ls: seq<Lexeme>): seq<seq<Lexeme>>
    decreases |ls|
  {
    if ls == [] then if current == [] then [] else [current]
    else if ls[0].Semi? then [current] + CutFrom([], ls[1..])
    else CutFrom(current + [ls[0]], ls[1..])
  }

  function Cut(ls: seq<Lexeme>): seq<seq<Lexeme>> {
    CutFrom([], ls)
  }

  function RenderAll(pieces: seq<seq<Lexeme>>): (texts: seq<string>)
    ensures |texts| == |pieces|
  {
    seq(|pieces|, i requires 0 <= i < |pieces| => Render(pieces[i]))
  }

  function Split(sql: string): seq<string> {
    RenderAll(Cut(Lex(sql)))
  }

  // --- Stripping: a comment becomes one space ---

  function StripLexeme(l: Lexeme): Lexeme {
    if l.Comment? then Plain(' ') else l
  }

  function StripLexemes(ls: seq<Lexeme>): (r: seq<Lexeme>)
    ensures |r| == |ls|
  {
    seq(|ls|, i requires 0 <= i < |ls| => StripLexeme(ls[i]))
  }

  function Strip(sql: string): string {
    Render(StripLexemes(Lex(sql)))
  }

  function StripEach(pieces: seq<string>): (r: seq<string>)
    ensures |r| == |pieces|
  {
    seq(|pieces|, i requires 0 <= i < |pieces| => Strip(pieces[i]))
  }

  // --- The leading keyword ---

  predicate Blank(l: Lexeme) {
    l.Comment? || (l.Plain? && IsWhitespace(l.c))
  }

  predicate WordLexeme(l: Lexeme) {
    l.Plain? && (IsAlphanumeric(l.c) || l.c == '_')
  }

  function SkipBlanks(ls: seq<Lexeme>): seq<Lexeme> {
    if ls != [] && Blank(ls[0]) then SkipBlanks(ls[1..]) else ls
  }

  function Word(ls: seq<Lexeme>): string {
    if ls != [] && WordLexeme(ls[0]) then [ls[0].c] + Word(ls[1..]) else ""
  }

  function Keyword(sql: string): Option<string> {
    var word := Word(SkipBlanks(Lex(sql)));
    if word == "" then None else Some(Upper(word))
  }

  // --- The scanners agree ---

  /** What the scanner reads in comment-stripped text is the stripped lexemes, so
      stripping never opens a quote or a comment that was not there. */
  lemma {:induction false} CanonicalStrip(ls: seq<Lexeme>)
    requires Canonical(ls)
    ensures Canonical(StripLexemes(ls))
  {
    if ls != [] {
      var rest := ls[1..];
      CanonicalStrip(rest);
      StripFits(ls[0], rest);
      CanonicalCons(StripLexeme(ls[0]), StripLexemes(rest));
      StripCons(ls);
    }
  }

  lemma {:induction false} StripCons(ls: seq<Lexeme>)
    requires ls != []
    ensures StripLexemes(ls) == [StripLexeme(ls[0])] + StripLexemes(ls[1..])
  {
  }

  lemma {:induction false} StripStart(rest: seq<Lexeme>)
    requires rest != [] && rest[0].Text() != ""
    ensures Render(StripLexemes(rest)) != "" && Render(rest) != ""
    ensures Render(StripLexemes(rest))[0] == Render(rest)[0] || Render(StripLexemes(rest))[0] == ' '
  {
    RenderStart(rest);
    StripCons(rest);
    RenderStart(StripLexemes(rest));
  }

  lemma {:induction false} SpaceFits(rest: string)
    ensures Fits(Plain(' '), rest)
  {
    assert (" " + rest)[0] == ' ';
  }

  lemma {:induction false} StripFits(l: Lexeme, rest: seq<Lexeme>)
    requires Fits(l, Render(rest)) && (rest == [] || rest[0].Text() != "")
    ensures Fits(StripLexeme(l), Render(StripLexemes(rest)))
  {
    if l.Comment? {
      SpaceFits(Render(StripLexemes(rest)));
    } else {
      if rest != [] {
        StripStart(rest);
      }
      FitsChange(l, Render(rest), Render(StripLexemes(rest)));
    }
  }

  lemma {:induction false} LexStrip(sql: string)
    ensures Lex(Strip(sql)) == StripLexemes(Lex(sql))
  {
    CanonicalLex(sql);
    CanonicalStrip(Lex(sql));
    LexCanonical(StripLexemes(Lex(sql)));
  }

  lemma {:induction false} StripIdempotent(sql: string)
    ensures Strip(Strip(sql)) == Strip(sql)
  {
    LexStrip(sql);
    assert StripLexemes(StripLexemes(Lex(sql))) == StripLexemes(Lex(sql));
  }

  lemma {:induction false} SkipBlanksStrip(ls: seq<Lexeme>)
    ensures SkipBlanks(StripLexemes(ls)) == StripLexemes(SkipBlanks(ls))
  {
    if ls != [] && Blank(ls[0]) {
      StripCons(ls);
      SkipBlanksStrip(ls[1..]);
    }
  }

  lemma {:induction false} WordStrip(ls: seq<Lexeme>)
    ensures Word(StripLexemes(ls)) == Word(ls)
  {
    if ls != [] && WordLexeme(ls[0]) {
      StripCons(ls);
      WordStrip(ls[1..]);
    }
  }

  lemma {:induction false} KeywordStrip(sql: string)
    ensures Keyword(Strip(sql)) == Keyword(sql)
  {
    LexStrip(sql);
    SkipBlanksStrip(Lex(sql));
    WordStrip(SkipBlanks(Lex(sql)));
  }

  function StripPieces(pieces: seq<seq<Lexeme>>): (r: seq<seq<Lexeme>>)
    ensures |r| == |pieces|
  {
    seq(|pieces|, i requires 0 <= i < |pieces| => StripLexemes(pieces[i]))
  }

  lemma {:induction false} CutStrip(current: seq<Lexeme>, ls: seq<Lexeme>)
    ensures CutFrom(StripLexemes(current), StripLexemes(ls)) == StripPieces(CutFrom(current, ls))
    decreases |ls|
  {
    if ls != [] {
      var rest := ls[1..];
      StripCons(ls);
      assert StripLexemes(ls)[1..] == StripLexemes(rest);
      if ls[0].Semi? {
        CutStrip([], rest);
        assert StripLexemes([]) == [];
        StripPiecesCons(current, CutFrom([], rest));
      } else {
        CutStrip(current + [ls[0]], rest);
        assert StripLexemes(current + [ls[0]]) == StripLexemes(current) + [StripLexeme(ls[0])];
      }
    }
  }

  lemma {:induction false} StripPiecesCons(piece: seq<Lexeme>, pieces: seq<seq<Lexeme>>)
    ensures StripPieces([piece] + pieces) == [StripLexemes(piece)] + StripPieces(pieces)
  {
  }

  /** Every piece is a canonical list without semicolons: what it means does not
      depend on the pieces around it. */
  ghost predicate Standalone(piece: seq<Lexeme>) {
    Canonical(piece) && forall l :: l in piece ==> !l.Semi?
  }

  lemma {:induction false} CutStandalone(current: seq<Lexeme>, ls: seq<Lexeme>)
    requires Canonical(current + ls) && forall l :: l in current ==> !l.Semi?
    ensures forall p :: p in CutFrom(current, ls) ==> Standalone(p)
    decreases |ls|
  {
    if ls == [] {
      assert current + ls == current;
    } else {
      ShiftConcat(current, ls);
      if ls[0].Semi? {
        CanonicalPrefix(current, ls);
        CanonicalSuffix(current + [ls[0]], ls[1..]);
        assert [] + ls[1..] == ls[1..];
        CutStandalone([], ls[1..]);
      } else {
        CutStandalone(current + [ls[0]], ls[1..]);
      }
    }
  }

  lemma {:induction false} PiecesStandalone(sql: string)
    ensures forall p :: p in Cut(Lex(sql)) ==> Standalone(p) && Lex(Render(p)) == p
  {
    CanonicalLex(sql);
    assert [] + Lex(sql) == Lex(sql);
    CutStandalone([], Lex(sql));
    forall p | p in Cut(Lex(sql)) ensures Lex(Render(p)) == p {
      LexCanonical(p);
    }
  }

  /** Splitting and stripping commute. */
  lemma {:induction false} SplitStrip(sql: string)
    ensures Split(Strip(sql)) == StripEach(Split(sql))
  {
    var ls := Lex(sql);
    LexStrip(sql);
    CutStrip([], ls);
    assert StripLexemes([]) == [];
    PiecesStandalone(sql);
    forall i | 0 <= i < |Cut(ls)|
      ensures Split(Strip(sql))[i] == StripEach(Split(sql))[i]
    {
      assert Cut(ls)[i] in Cut(ls);
    }
  }

  lemma {:induction false} CutNoSemi(current: seq<Lexeme>, ls: seq<Lexeme>)
    requires forall l :: l in ls ==> !l.Semi?
    requires current + ls != []
    ensures CutFrom(current, ls) == [current + ls]
    decreases |ls|
  {
    if ls == [] {
      assert current + ls == current;
    } else {
      CutNoSemi(current + [ls[0]], ls[1..]);
      assert current + ls == (current + [ls[0]]) + ls[1..];
    }
  }

  /** A piece holds one statement: splitting it again changes nothing. */
  lemma {:induction false} PieceSplitsToItself(sql: string, i: nat)
    requires i < |Split(sql)| && Split(sql)[i] != ""
    ensures Split(Split(sql)[i]) == [Split(sql)[i]]
  {
    PiecesStandalone(sql);
    var p := Cut(Lex(sql))[i];
    assert p in Cut(Lex(sql));
    assert p != [];
    CutNoSemi([], p);
    assert [] + p == p;
  }

  function Join(pieces: seq<string>): string {
    if pieces == [] then ""
    else if |pieces| == 1 then pieces[0]
    else pieces[0] + ";" + Join(pieces[1..])
  }

  /** Whether the text ends with a top-level semicolon, which splitting drops. */
  predicate EndsWithSemi(ls: seq<Lexeme>) {
    ls != [] && ls[|ls| - 1].Semi?
  }

  function Final(ls: seq<Lexeme>): string {
    if EndsWithSemi(ls) then ";" else ""
  }

  lemma {:induction false} JoinCons(piece: string, pieces: seq<string>)
    requires pieces != []
    ensures Join([piece] + pieces) == piece + ";" + Join(pieces)
  {
    assert ([piece] + pieces)[1..] == pieces;
  }

  lemma {:induction false} JoinCutSemi(current: seq<Lexeme>, rest: seq<Lexeme>)
    requires Join(RenderAll(Cut(rest))) + Final(rest) == Render(rest)
    ensures Join(RenderAll([current] + Cut(rest))) + (if rest == [] then ";" else Final(rest))
         == Render(current) + ";" + Render(rest)
  {
    var tail := RenderAll(Cut(rest));
    RenderAllCons(current, Cut(rest));
    if rest == [] {
      assert [Render(current)] + tail == [Render(current)];
    } else {
      CutNonEmptyFrom([], rest);
      hide *;
      JoinCons(Render(current), tail);
      ConcatAssoc(Render(current) + ";", Join(tail), Final(rest));
    }
  }

  lemma {:induction false} RenderAllCons(piece: seq<Lexeme>, pieces: seq<seq<Lexeme>>)
    ensures RenderAll([piece] + pieces) == [Render(piece)] + RenderAll(pieces)
  {
  }

  lemma {:induction false} JoinCut(current: seq<Lexeme>, ls: seq<Lexeme>)
    ensures Join(RenderAll(CutFrom(current, ls))) + Final(ls) == Render(current) + Render(ls)
    decreases |ls|
  {
    if ls == [] {
      assert RenderAll(CutFrom(current, ls)) == if current == [] then [] else [Render(current)];
    } else {
      var rest := ls[1..];
      FinalCons(ls[0], rest);
      assert ls == [ls[0]] + rest;
      if ls[0].Semi? {
        JoinCut([], rest);
        assert Render([]) + Render(rest) == Render(rest);
        JoinCutSemi(current, rest);
        ConcatAssoc(Render(current), ";", Render(rest));
      } else {
        JoinCut(current + [ls[0]], rest);
        RenderConcat(current, [ls[0]]);
        ConcatAssoc(Render(current), ls[0].Text(), Render(rest));
      }
    }
  }

  lemma {:induction false} FinalCons(l: Lexeme, rest: seq<Lexeme>)
    ensures Final([l] + rest) == if rest == [] && l.Semi? then ";" else Final(rest)
  {
  }

  lemma {:induction false} CutNonEmptyFrom(current: seq<Lexeme>, ls: seq<Lexeme>)
    requires current + ls != []
    ensures CutFrom(current, ls) != []
    decreases |ls|
  {
    if ls != [] && !ls[0].Semi? {
      CutNonEmptyFrom(current + [ls[0]], ls[1..]);
    }
  }

  /** Joining the pieces with `;` gives the text back, but for one final `;`. */
  lemma {:induction false} JoinSplit(sql: string)
    ensures Join(Split(sql)) + Final(Lex(sql)) == sql
  {
    JoinCut([], Lex(sql));
    RenderLex(sql);
  }
}
