/** Facts about sequences that several components need. */
module Sequences {

  lemma {:induction false} ConsConcat<T>(a: seq<T>, b: seq<T>)
    requires a != []
    ensures a + b == [a[0]] + (a[1..] + b)
  {
  }

  lemma {:induction false} ShiftConcat<T>(a: seq<T>, b: seq<T>)
    requires b != []
    ensures a + b == (a + [b[0]]) + b[1..]
  {
  }

  lemma {:induction false} ConcatAssoc<T>(a: seq<T>, b: seq<T>, c: seq<T>)
    ensures (a + b) + c == a + (b + c)
  {
  }

  lemma {:induction false} SliceExtend<T>(a: seq<T>, s: seq<T>, start: nat, i: nat)
    requires start <= i < |s|
    ensures (a + s[start..i]) + [s[i]] == a + s[start..i + 1]
    ensures s[start..i] + [s[i]] == s[start..i + 1]
  {
  }

  lemma {:induction false} SplitAt<T>(s: seq<T>, i: nat)
    requires i < |s|
    ensures s == (s[..i] + [s[i]]) + s[i + 1..]
  {
  }
}
