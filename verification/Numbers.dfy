/** Decimal text of whole numbers, and reading it back into 64 bits. */
module Numbers {
  import opened Ascii
  import opened Wrappers

  const USIZE_LIMIT: nat := 0x1_0000_0000_0000_0000

  function DigitChar(d: nat): (c: char)
    requires d < 10
    ensures IsDigit(c)
  {
    ('0' as int + d) as char
  }

  function Digits(n: nat): (s: string)
    ensures s != "" && forall i :: 0 <= i < |s| ==> IsDigit(s[i])
  {
    if n < 10 then [DigitChar(n)] else Digits(n / 10) + [DigitChar(n % 10)]
  }

  function Signed(n: int): string {
    if n < 0 then "-" + Digits(-n) else Digits(n)
  }

  /** The value of a run of digits, or None when there is another character. */
  function DigitsValue(s: string): Option<nat> {
    if s == "" then Some(0)
    else
      var last := s[|s| - 1];
      var before := DigitsValue(s[..|s| - 1]);
      if before.None? || !IsDigit(last) then None else Some(10 * before.value + (last as int - '0' as int))
  }

  /** Rust's parse::<usize>: one leading `+` is fine, no digits or too many are not. */
  function ParseUsize(s: string): Option<nat> {
    var digits := if |s| > 1 && s[0] == '+' then s[1..] else s;
    if digits == "" || DigitsValue(digits).None? || DigitsValue(digits).value >= USIZE_LIMIT then None
    else DigitsValue(digits)
  }

  lemma {:induction false} DigitsValueOf(n: nat)
    ensures DigitsValue(Digits(n)) == Some(n)
  {
    if n < 10 {
      assert Digits(n)[..0] == "";
    } else {
      DigitsValueOf(n / 10);
      var s := Digits(n);
      assert s[..|s| - 1] == Digits(n / 10);
    }
  }

  lemma {:induction false} ParseDigits(n: nat)
    requires n < USIZE_LIMIT
    ensures ParseUsize(Digits(n)) == Some(n)
  {
    DigitsValueOf(n);
  }

  lemma {:induction false} NoMinus(s: string)
    requires s != "" && s[0] == '-'
    ensures DigitsValue(s) == None
  {
    if |s| > 1 {
      NoMinus(s[..|s| - 1]);
    }
  }

  lemma {:induction false} ParseSigned(n: int)
    requires n < USIZE_LIMIT
    ensures ParseUsize(Signed(n)) == if n < 0 then None else Some(n)
  {
    if n < 0 {
      NoMinus(Signed(n));
    } else {
      ParseDigits(n);
    }
  }
}
