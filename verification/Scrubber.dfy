/**
 Redaction of `password=<value>` in error text. The suffix-based function is the reference;
 the index loop computes it, and the value never shows in its result.
 */
module Scrubber {
  import opened Ascii
  import opened Sequences
  import opened Lexemes
  import opened Wrappers

  const KEY := "password"
  const MARK := "=[redacted]"

  /** ASCII whitespace without the vertical tab. */
  predicate IsBlank(c: char) {
    c == ' ' || c == '\t' || c == '\n' || c == '\r' || c as int == 12
  }

  /** The text starts with the key, in any case. */
  predicate Keyed(s: string) {
    |s| >= 8 && Lower(s[..8]) == KEY
  }

  function BlankLength(s: string): (n: nat)
    ensures n <= |s|
  {
    if s != "" && IsBlank(s[0]) then 1 + BlankLength(s[1..]) else 0
  }

  predicate EndsBare(c: char) {
    IsBlank(c) || IsQuote(c)
  }

  function BareValueLength(s: string): (n: nat)
    ensures n <= |s|
  {
    if s == "" || EndsBare(s[0]) then 0 else 1 + BareValueLength(s[1..])
  }

  function ValueLength(s: string): (n: nat)
    ensures n <= |s|
  {
    if s != "" && s[0] == '\'' then 1 + QuoteLength(s[1..], '\'') else BareValueLength(s)
  }

  /** Blanks, then `=`. */
  predicate Assigns(s: string) {
    BlankLength(s) < |s| && s[BlankLength(s)] == '='
  }

  /** What follows the key in an assignment: blanks, `=`, blanks and the value. */
  function AssignedLength(s: string): (n: nat)
    requires Assigns(s)
    ensures n <= |s|
  {
    var value := BlankLength(s) + 1 + BlankLength(s[BlankLength(s) + 1..]);
    value + ValueLength(s[value..])
  }

  predicate Matches(s: string) {
    Keyed(s) && Assigns(s[8..])
  }

  function Scrub(s: string): string {
    if s == "" then ""
    else if Matches(s) then s[..8] + (MARK + Scrub(s[8 + AssignedLength(s[8..])..]))
    else [s[0]] + Scrub(s[1..])
  }

  // --- The key does not overlap itself ---

  lemma {:induction false} KeyedChars(s: string)
    requires |s| >= 8
    ensures Keyed(s) <==> forall i :: 0 <= i < 8 ==> LowerChar(s[i]) == KEY[i]
  {
    assert Lower(s[..8]) == KEY <==> forall i :: 0 <= i < 8 ==> Lower(s[..8])[i] == KEY[i];
  }

  lemma {:induction false} NoOverlap(s: string, i: nat)
    requires Keyed(s) && 0 < i < 8
    ensures !Keyed(s[i..])
  {
    KeyedChars(s);
    if |s[i..]| >= 8 {
      KeyedChars(s[i..]);
      assert s[i..][0] == s[i];
      assert LowerChar(s[i]) == KEY[i] != KEY[0];
    }
  }

  /** Text where no match starts is copied. */
  lemma {:induction false} CopyPlain(s: string, n: nat)
    requires n <= |s| && forall i :: 0 <= i < n ==> !Matches(s[i..])
    ensures Scrub(s) == s[..n] + Scrub(s[n..])
  {
    hide Matches, AssignedLength;
    if n == 0 {
      assert s[..0] + Scrub(s[0..]) == Scrub(s[0..]) && s[0..] == s;
    } else {
      assert s[0..] == s;
      assert forall i :: 0 <= i < n - 1 ==> s[1..][i..] == s[i + 1..];
      CopyPlain(s[1..], n - 1);
      assert s[1..][n - 1..] == s[n..];
      assert s[..n] == [s[0]] + s[1..][..n - 1];
      ConcatAssoc([s[0]], s[1..][..n - 1], Scrub(s[n..]));
    }
  }

  /** A key with no assignment is copied whole. */
  lemma {:induction false} CopyKey(s: string)
    requires Keyed(s) && !Assigns(s[8..])
    ensures Scrub(s) == s[..8] + Scrub(s[8..])
  {
    forall i | 0 <= i < 8
      ensures !Matches(s[i..])
    {
      if i > 0 {
        NoOverlap(s, i);
      } else {
        assert s[0..] == s;
      }
    }
    CopyPlain(s, 8);
  }

  // --- The loop ---

  method FindKey(text: string, from: nat) returns (found: Option<nat>)
    requires from <= |text|
    ensures found.Some? ==> from <= found.value <= |text| && Keyed(text[found.value..])
    ensures forall i :: from <= i < (if found.Some? then found.value else |text|) ==> !Keyed(text[i..])
  {
    var i := from;
    while i < |text|
      invariant from <= i <= |text|
      invariant forall j :: from <= j < i ==> !Keyed(text[j..])
    {
      if i + 8 <= |text| && Lower(text[i..i + 8]) == KEY {
        assert text[i..][..8] == text[i..i + 8];
        return Some(i);
      }
      assert i + 8 <= |text| ==> text[i..][..8] == text[i..i + 8];
      i := i + 1;
    }
    return None;
  }

  method SkipBlanks(text: string, from: nat) returns (k: nat)
    requires from <= |text|
    ensures k == from + BlankLength(text[from..]) <= |text|
    ensures (k < |text| && text[k] == '=') <==> Assigns(text[from..])
  {
    k := from;
    while k < |text| && IsBlank(text[k])
      invariant from <= k <= |text|
      invariant k + BlankLength(text[k..]) == from + BlankLength(text[from..])
    {
      assert text[k..][1..] == text[k + 1..];
      k := k + 1;
    }
  }

  method SkipValue(text: string, from: nat) returns (m: nat)
    requires from <= |text|
    ensures m == from + ValueLength(text[from..]) <= |text|
  {
    if from < |text| && text[from] == '\'' {
      m := from + 1;
      assert text[from..][1..] == text[m..];
      while true
        invariant from < m <= |text|
        invariant m + QuoteLength(text[m..], '\'') == from + ValueLength(text[from..])
        decreases |text| - m
      {
        if m == |text| {
          return;
        }
        assert text[m..][1..] == text[m + 1..];
        if text[m] == '\'' && m + 1 < |text| && text[m + 1] == '\'' {
          assert text[m..][1] == '\'' && text[m..][2..] == text[m + 2..];
          m := m + 2;
        } else if text[m] == '\'' {
          return m + 1;
        } else {
          m := m + 1;
        }
      }
    } else {
      m := from;
      while m < |text| && !IsBlank(text[m]) && text[m] != '\'' && text[m] != '"'
        invariant from <= m <= |text|
        invariant m + BareValueLength(text[m..]) == from + ValueLength(text[from..])
      {
        assert text[m..][1..] == text[m + 1..];
        m := m + 1;
      }
    }
  }

  /** What is out already, what is copied next, and what is still to scan. */
  ghost predicate Progress(text: string, out: string, emitted: nat, search: nat) {
    emitted <= search <= |text| && Scrub(text) == out + (text[emitted..search] + Scrub(text[search..]))
  }

  lemma {:induction false} Advance(text: string, out: string, emitted: nat, search: nat, next: nat)
    requires Progress(text, out, emitted, search) && search <= next <= |text|
    requires Scrub(text[search..]) == text[search..next] + Scrub(text[next..])
    ensures Progress(text, out, emitted, next)
  {
    hide Scrub;
    assert text[emitted..next] == text[emitted..search] + text[search..next];
    ConcatAssoc(text[emitted..search], text[search..next], Scrub(text[next..]));
  }

  lemma {:induction false} AdvancePlain(text: string, out: string, emitted: nat, search: nat, next: nat)
    requires Progress(text, out, emitted, search) && search <= next <= |text|
    requires forall i :: search <= i < next ==> !Keyed(text[i..])
    ensures Progress(text, out, emitted, next)
  {
    var s := text[search..];
    forall i | 0 <= i < next - search
      ensures !Matches(s[i..])
    {
      assert s[i..] == text[search + i..];
    }
    hide Scrub, Keyed, Progress, Matches;
    CopyPlain(s, next - search);
    assert s[..next - search] == text[search..next] && s[next - search..] == text[next..];
    Advance(text, out, emitted, search, next);
  }

  lemma {:induction false} AdvanceKey(text: string, out: string, emitted: nat, key: nat)
    requires Progress(text, out, emitted, key) && Keyed(text[key..]) && !Assigns(text[key + 8..])
    ensures Progress(text, out, emitted, key + 8)
  {
    assert text[key..][8..] == text[key + 8..] && text[key..][..8] == text[key..key + 8];
    CopyKey(text[key..]);
    hide Scrub, Keyed, Progress;
    Advance(text, out, emitted, key, key + 8);
  }

  lemma {:induction false} AdvanceValue(text: string, out: string, emitted: nat, key: nat, end: nat)
    requires Progress(text, out, emitted, key) && Keyed(text[key..]) && Assigns(text[key + 8..])
    requires end == key + 8 + AssignedLength(text[key + 8..])
    ensures Progress(text, out + text[emitted..key + 8] + MARK, end, end)
  {
    MatchAt(text, key, end);
    hide Scrub, AssignedLength, Keyed, Assigns;
    Redact(out, text[emitted..key], text[key..key + 8], Scrub(text[end..]));
    assert text[emitted..key + 8] == text[emitted..key] + text[key..key + 8];
    assert text[end..end] + Scrub(text[end..]) == Scrub(text[end..]);
  }

  lemma {:induction false} MatchAt(text: string, key: nat, end: nat)
    requires key <= |text| && Keyed(text[key..]) && Assigns(text[key + 8..])
    requires end == key + 8 + AssignedLength(text[key + 8..])
    ensures Scrub(text[key..]) == text[key..key + 8] + (MARK + Scrub(text[end..]))
  {
    var s := text[key..];
    assert s[8..] == text[key + 8..] && s[..8] == text[key..key + 8] && s[end - key..] == text[end..];
    hide AssignedLength, Keyed, Assigns;
  }

  lemma {:induction false} Redact(out: string, before: string, key: string, rest: string)
    ensures out + (before + (key + (MARK + rest))) == (out + (before + key) + MARK) + rest
  {
  }

  method ScrubErrorText(text: string) returns (out: string)
    ensures out == Scrub(text)
  {
    hide Scrub, Keyed, Progress, AssignedLength, Assigns, BlankLength, ValueLength;
    out := "";
    var emitted: nat, search: nat := 0, 0;
    Start(text);
    while true
      invariant emitted <= search <= |text|
      invariant Progress(text, out, emitted, search)
      decreases |text| - search
    {
      var found := FindKey(text, search);
      if found.None? {
        AdvancePlain(text, out, emitted, search, |text|);
        break;
      }
      var key := found.value;
      AdvancePlain(text, out, emitted, search, key);
      KeyFits(text, key);
      var k := SkipBlanks(text, key + 8);
      if k >= |text| || text[k] != '=' {
        AdvanceKey(text, out, emitted, key);
        search := key + 8;
        continue;
      }
      k := SkipBlanks(text, k + 1);
      var end := SkipValue(text, k);
      ValueEnd(text, key + 8);
      AdvanceValue(text, out, emitted, key, end);
      out := out + text[emitted..key + 8] + MARK;
      emitted, search := end, end;
    }
    Finish(text, out, emitted);
    out := out + text[emitted..];
  }

  lemma {:induction false} KeyFits(text: string, key: nat)
    requires key <= |text| && Keyed(text[key..])
    ensures key + 8 <= |text|
  {
  }

  lemma {:induction false} Start(text: string)
    ensures Progress(text, "", 0, 0)
  {
    assert text[0..] == text && text[0..0] + Scrub(text) == Scrub(text);
  }

  lemma {:induction false} Finish(text: string, out: string, emitted: nat)
    requires Progress(text, out, emitted, |text|)
    ensures Scrub(text) == out + text[emitted..]
  {
    assert text[emitted..|text|] + "" == text[emitted..];
  }

  lemma {:induction false} ValueEnd(text: string, k: nat)
    requires k <= |text| && Assigns(text[k..])
    ensures var value := k + BlankLength(text[k..]) + 1;
            var start := value + BlankLength(text[value..]);
            k + AssignedLength(text[k..]) == start + ValueLength(text[start..])
  {
    var s := text[k..];
    var n := BlankLength(s) + 1;
    assert s[n..] == text[k + n..];
    assert s[n + BlankLength(s[n..])..] == text[k + n + BlankLength(s[n..])..];
  }
}
