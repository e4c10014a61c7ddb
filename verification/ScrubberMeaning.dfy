/** What redaction guarantees: no value shows, and everything else is kept. */
module ScrubberMeaning {
  import opened Ascii
  import opened Sequences
  import opened Tokens
  import opened Scrubber

  /** Space, tab, newline, form feed and carriage return. */
  predicate AsciiBlank(c: char) {
    c in {' ', '\t', '\n', 12 as char, '\r'}
  }

  /** What ends a bare value. */
  predicate EndsValue(c: char) {
    AsciiBlank(c) || c == '\'' || c == '"'
  }

  predicate AllBlank(s: string) {
    forall i :: 0 <= i < |s| ==> AsciiBlank(s[i])
  }

  predicate IsKey(key: string) {
    |key| == 8 && Lower(key) == KEY
  }

  predicate NoKey(s: string) {
    forall i :: 0 <= i < |s| ==> !Keyed(s[i..])
  }

  lemma {:induction false} BlanksThen(b: string, rest: string)
    requires AllBlank(b) && (rest == "" || !IsBlank(rest[0]))
    ensures BlankLength(b + rest) == |b|
  {
    if b == "" {
      assert b + rest == rest;
    } else {
      ConsConcat(b, rest);
      BlanksThen(b[1..], rest);
    }
  }

  /** `value` is read as one value before `post`. */
  predicate Value(value: string, post: string) {
    && value != "" && !IsBlank(value[0])
    && ValueLength(value + post) == |value|
  }

  function Assignment(key: string, b1: string, b2: string, value: string, post: string): string {
    key + (b1 + ("=" + (b2 + (value + post))))
  }

  lemma {:induction false} AssignmentLength(b1: string, b2: string, value: string, post: string)
    requires AllBlank(b1) && AllBlank(b2) && Value(value, post)
    ensures var t := b1 + ("=" + (b2 + (value + post)));
            && Assigns(t)
            && AssignedLength(t) == |b1| + 1 + |b2| + |value|
            && t[AssignedLength(t)..] == post
  {
    hide ValueLength;
    var v := value + post;
    var t := b1 + ("=" + (b2 + v));
    BlanksThen(b1, "=" + (b2 + v));
    BlanksThen(b2, v);
    assert t[|b1| + 1..] == b2 + v;
    assert (b2 + v)[|b2|..] == v;
    assert t[|b1| + 1 + |b2|..] == v && v[|value|..] == post;
  }

  lemma {:induction false} ScrubAssignment(key: string, b1: string, b2: string, value: string, post: string)
    requires IsKey(key) && AllBlank(b1) && AllBlank(b2) && Value(value, post)
    ensures Keyed(Assignment(key, b1, b2, value, post))
    ensures Scrub(Assignment(key, b1, b2, value, post)) == key + (MARK + Scrub(post))
  {
    var t := b1 + ("=" + (b2 + (value + post)));
    var s := key + t;
    AssignmentLength(b1, b2, value, post);
    hide AssignedLength, Assigns, Value, IsBlank;
    ScrubMatch(key, t);
  }

  lemma {:induction false} ScrubMatch(key: string, t: string)
    requires IsKey(key) && Assigns(t)
    ensures Keyed(key + t) && Scrub(key + t) == key + (MARK + Scrub(t[AssignedLength(t)..]))
  {
    var s := key + t;
    hide AssignedLength, Assigns;
    assert s[..8] == key && s[8..] == t;
    assert s[8 + AssignedLength(t)..] == t[AssignedLength(t)..];
  }

  /** No key starts inside a prefix without the key, even one that ends in the text after. */
  lemma {:induction false} PrefixIsPlain(pre: string, s: string, i: nat)
    requires NoKey(pre) && Keyed(s) && i < |pre|
    ensures !Keyed((pre + s)[i..])
  {
    var t := (pre + s)[i..];
    if i + 8 <= |pre| {
      assert t[..8] == pre[i..][..8];
    } else if |t| >= 8 {
      KeyedChars(t);
      KeyedChars(s);
      assert t[|pre| - i] == s[0];
      assert KEY[|pre| - i] != KEY[0];
    }
  }

  lemma {:induction false} ScrubAfter(pre: string, s: string)
    requires NoKey(pre) && Keyed(s)
    ensures Scrub(pre + s) == pre + Scrub(s)
  {
    forall i | 0 <= i < |pre|
      ensures !Matches((pre + s)[i..])
    {
      PrefixIsPlain(pre, s, i);
    }
    hide Scrub, Matches;
    CopyPlain(pre + s, |pre|);
    assert (pre + s)[..|pre|] == pre && (pre + s)[|pre|..] == s;
  }

  lemma {:induction false} QuotedValue(v: string, post: string)
    requires post == "" || post[0] != '\''
    ensures Value(Quote(v, '\''), post)
  {
    var value := Quote(v, '\'');
    QuoteLengthDouble(v, '\'', post);
    assert (value + post)[1..] == Double(v, '\'') + (['\''] + post);
  }

  lemma {:induction false} BareRun(v: string, post: string)
    requires forall i :: 0 <= i < |v| ==> !EndsBare(v[i])
    requires post == "" || EndsBare(post[0])
    ensures BareValueLength(v + post) == |v|
  {
    if v == "" {
      assert v + post == post;
    } else {
      ConsConcat(v, post);
      BareRun(v[1..], post);
    }
  }

  lemma {:induction false} BareValue(v: string, post: string)
    requires v != "" && forall i :: 0 <= i < |v| ==> !EndsBare(v[i])
    requires post == "" || EndsBare(post[0])
    ensures Value(v, post)
  {
    BareRun(v, post);
  }

  /** A bare value does not show, whatever it is. */
  lemma {:induction false} BareValueIsRedacted(
    pre: string, key: string, b1: string, b2: string, v: string, post: string)
    requires NoKey(pre) && IsKey(key) && AllBlank(b1) && AllBlank(b2)
    requires v != "" && forall i :: 0 <= i < |v| ==> !EndsValue(v[i])
    requires post == "" || EndsValue(post[0])
    ensures Scrub(pre + Assignment(key, b1, b2, v, post)) == pre + (key + ("=[redacted]" + Scrub(post)))
  {
    BareValue(v, post);
    ScrubAssignment(key, b1, b2, v, post);
    ScrubAfter(pre, Assignment(key, b1, b2, v, post));
  }

  // --- Any number of quoted secrets in one text ---

  datatype Secret = Secret(pre: string, key: string, b1: string, b2: string, value: string)
  {
    predicate Valid() {
      NoKey(pre) && IsKey(key) && AllBlank(b1) && AllBlank(b2)
    }
  }

  function Text(secrets: seq<Secret>, tail: string): string {
    if secrets == [] then tail
    else
      var s := secrets[0];
      s.pre + Assignment(s.key, s.b1, s.b2, Quote(s.value, '\''), Text(secrets[1..], tail))
  }

  /** The same without the values. */
  function Redacted(secrets: seq<Secret>, tail: string): string {
    if secrets == [] then tail
    else secrets[0].pre + (secrets[0].key + ("=[redacted]" + Redacted(secrets[1..], tail)))
  }

  /** What follows a secret does not continue its quotes. */
  predicate Separate(secrets: seq<Secret>, tail: string) {
    && (forall i :: 0 <= i < |secrets| ==> secrets[i].Valid())
    && (forall i :: 1 <= i < |secrets| ==> secrets[i].pre == "" || secrets[i].pre[0] != '\'')
    && (tail == "" || tail[0] != '\'')
  }

  lemma {:induction false} TextStart(secrets: seq<Secret>, tail: string)
    requires Separate(secrets, tail) && secrets != []
    ensures var post := Text(secrets[1..], tail); post == "" || post[0] != '\''
  {
    if |secrets| > 1 && secrets[1].pre == "" {
      var next := secrets[1];
      assert next.Valid();
      assert Lower(next.key)[0] == 'p';
      assert secrets[1..][0] == next;
      assert Text(secrets[1..], tail)[0] == next.key[0];
    }
  }

  /** The result is made of the text around the values alone: no value can show in it. */
  lemma {:induction false} SecretsAreRedacted(secrets: seq<Secret>, tail: string)
    requires Separate(secrets, tail)
    ensures Scrub(Text(secrets, tail)) == Redacted(secrets, Scrub(tail))
  {
    if secrets != [] {
      var s := secrets[0];
      var post := Text(secrets[1..], tail);
      TextStart(secrets, tail);
      SecretsAreRedacted(secrets[1..], tail);
      assert s.Valid();
      hide Scrub, Keyed, Value, NoKey, IsKey, AllBlank, Assignment, Quote;
      QuotedValue(s.value, post);
      ScrubAssignment(s.key, s.b1, s.b2, Quote(s.value, '\''), post);
      ScrubAfter(s.pre, Assignment(s.key, s.b1, s.b2, Quote(s.value, '\''), post));
    }
  }

  /** Non-interference: texts that differ in their secret values only scrub to the same. */
  lemma {:induction false} ValuesDoNotInterfere(secrets: seq<Secret>, others: seq<Secret>, tail: string)
    requires Separate(secrets, tail) && |others| == |secrets|
    requires forall i :: 0 <= i < |secrets| ==> others[i] == secrets[i].(value := others[i].value)
    ensures Scrub(Text(secrets, tail)) == Scrub(Text(others, tail))
  {
    hide Scrub, Secret.Valid;
    forall i | 0 <= i < |others|
      ensures others[i].Valid()
    {
      SameShape(secrets[i], others[i]);
    }
    SecretsAreRedacted(secrets, tail);
    SecretsAreRedacted(others, tail);
    SameRedacted(secrets, others, Scrub(tail));
  }

  lemma {:induction false} SameShape(s: Secret, o: Secret)
    requires s.Valid() && o == s.(value := o.value)
    ensures o.Valid()
  {
  }

  lemma {:induction false} SameRedacted(secrets: seq<Secret>, others: seq<Secret>, tail: string)
    requires |others| == |secrets|
    requires forall i :: 0 <= i < |secrets| ==> others[i] == secrets[i].(value := others[i].value)
    ensures Redacted(secrets, tail) == Redacted(others, tail)
  {
    if secrets != [] {
      SameRedacted(secrets[1..], others[1..], tail);
    }
  }

  // --- Every result is redacted ---

  predicate IsP(c: char) {
    c == 'p' || c == 'P'
  }

  lemma {:induction false} KeyLetters(s: string)
    requires Keyed(s)
    ensures IsP(s[0]) && !IsBlank(s[0]) && s[0] != '=' && forall i :: 1 <= i < 8 ==> !IsP(s[i])
  {
    KeyedChars(s);
  }

  /** Scrubbing keeps the first character; where a match starts, that is a `p`. */
  lemma {:induction false} ScrubHead(s: string)
    requires s != ""
    ensures Scrub(s) != "" && Scrub(s)[0] == s[0]
    ensures Matches(s) ==> IsP(s[0]) && !IsBlank(s[0]) && s[0] != '='
  {
    if Matches(s) {
      KeyLetters(s);
    }
  }

  lemma {:induction false} AssignsKept(t: string)
    requires Assigns(Scrub(t))
    ensures Assigns(t)
  {
    if t != "" {
      ScrubHead(t);
      if IsBlank(t[0]) {
        assert Scrub(t)[1..] == Scrub(t[1..]);
        AssignsKept(t[1..]);
      }
    }
  }

  lemma {:induction false} NoMatchInKey(s: string, n: nat)
    requires !Matches(s) && Keyed(Scrub(s)) && n <= 8 && n <= |s|
    ensures forall i :: 0 <= i < n ==> !Matches(s[i..])
  {
    if n > 0 {
      NoMatchInKey(s, n - 1);
      CopyPlain(s, n - 1);
      var t := s[n - 1..];
      KeyLetters(Scrub(s));
      ScrubHead(t);
      hide Scrub, Matches, Keyed;
      assert Scrub(s)[n - 1] == t[0];
      assert n == 1 ==> t == s;
    }
  }

  /** A key in the result was a key in the text, and what follows was scrubbed by itself. */
  lemma {:induction false} KeyKept(s: string)
    requires !Matches(s) && Keyed(Scrub(s))
    ensures Keyed(s) && Scrub(s)[8..] == Scrub(s[8..])
  {
    var n := if |s| < 8 then |s| else 8;
    NoMatchInKey(s, n);
    CopyPlain(s, n);
    assert Scrub(s)[..n] == s[..n];
    assert n == |s| ==> Scrub(s[n..]) == "";
    hide Scrub;
  }

  ghost predicate OnlyRedacted(out: string) {
    forall i :: 0 <= i < |out| && Matches(out[i..]) ==> MARK <= out[i..][8..]
  }

  /** In every result, each key followed by blanks and `=` is followed at once by the mark. */
  lemma {:induction false} ResultIsRedacted(s: string)
    ensures OnlyRedacted(Scrub(s))
  {
    if s == "" {
    } else if Matches(s) {
      var rest := Scrub(s[8 + AssignedLength(s[8..])..]);
      ResultIsRedacted(s[8 + AssignedLength(s[8..])..]);
      hide Scrub, Matches, AssignedLength, OnlyRedacted;
      RedactedMatch(s[..8], rest);
    } else {
      ResultIsRedacted(s[1..]);
      assert Scrub(s) == [s[0]] + Scrub(s[1..]);
      assert !Matches(Scrub(s)) by {
        if Keyed(Scrub(s)) && Assigns(Scrub(s)[8..]) {
          KeyKept(s);
          AssignsKept(s[8..]);
        }
      }
      hide Scrub, Matches;
      RedactedCons(s[0], Scrub(s[1..]));
    }
  }

  lemma {:induction false} RedactedCons(c: char, rest: string)
    requires OnlyRedacted(rest) && !Matches([c] + rest)
    ensures OnlyRedacted([c] + rest)
  {
    hide Matches;
    var out := [c] + rest;
    assert out[0..] == out;
    assert forall i :: 1 <= i < |out| ==> out[i..] == rest[i - 1..];
  }

  lemma {:induction false} RedactedMatch(key: string, rest: string)
    requires IsKey(key) && OnlyRedacted(rest)
    ensures OnlyRedacted(key + (MARK + rest))
  {
    var out := key + (MARK + rest);
    assert out[..8] == key;
    KeyLetters(out);
    forall i | 8 <= i < 8 + |MARK|
      ensures !IsP(out[i])
    {
      assert out[i] == MARK[i - 8];
    }
    hide Matches, IsKey;
    forall i | 0 <= i < |out| && Matches(out[i..])
      ensures MARK <= out[i..][8..]
    {
      ScrubHead(out[i..]);
      hide Scrub;
      assert out[i..][0] == out[i];
      if i >= 8 + |MARK| {
        assert out[i..] == rest[i - 8 - |MARK|..];
      } else if i == 0 {
        assert out[0..][8..] == MARK + rest;
      }
    }
  }

  /** Text without an assignment to the key is unchanged. */
  lemma {:induction false} NothingToRedact(s: string)
    requires forall i :: 0 <= i < |s| ==> !Matches(s[i..])
    ensures Scrub(s) == s
  {
    CopyPlain(s, |s|);
    assert s[|s|..] == "" && s[..|s|] + "" == s;
  }
}
