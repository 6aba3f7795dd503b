/** Decimal text of unsigned integers, as cursors and shelf names carry it. */
module Numerals {
  import opened Prelude

  function Digit(n: nat): char
    requires n < 10
  {
    ('0' as int + n) as char
  }

  predicate IsDigit(c: char) {
    '0' <= c <= '9'
  }

  function Decimal(n: nat): string {
    if n < 10 then [Digit(n)] else Decimal(n / 10) + [Digit(n % 10)]
  }

  function DigitsValue(s: string): Option<nat> {
    if s == "" then Some(0) else
    var last := s[|s| - 1];
    match DigitsValue(s[..|s| - 1])
    case None => None
    case Some(v) => if IsDigit(last) then Some(10 * v + (last as int - '0' as int)) else None
  }

  // `str::parse` for an unsigned type: an optional plus sign, then at least one digit; a
  // value above `max` is an overflow.
  function ParseUnsigned(s: string, max: nat): Option<nat> {
    var digits := if s != "" && s[0] == '+' then s[1..] else s;
    if digits == "" then None else
    var v := DigitsValue(digits);
    if v.Some? && v.value <= max then v else None
  }

  lemma {:induction false} DecimalDigits(n: nat)
    ensures Decimal(n) != "" && forall i :: 0 <= i < |Decimal(n)| ==> IsDigit(Decimal(n)[i])
    ensures DigitsValue(Decimal(n)) == Some(n)
  {
    if n >= 10 {
      DecimalDigits(n / 10);
      assert Decimal(n)[..|Decimal(n)| - 1] == Decimal(n / 10);
    } else {
      assert Decimal(n)[..0] == "";
    }
  }

  /** Parsing undoes printing. */
  lemma {:induction false} ParseDecimal(n: nat, max: nat)
    requires n <= max
    ensures ParseUnsigned(Decimal(n), max) == Some(n)
  {
    DecimalDigits(n);
  }

  function Pow10(k: nat): nat {
    if k == 0 then 1 else 10 * Pow10(k - 1)
  }

  lemma {:induction false} DecimalLength(n: nat, k: nat)
    requires 1 <= k && n < Pow10(k)
    ensures ByteLen(Decimal(n)) <= k
  {
    if n >= 10 {
      DecimalLength(n / 10, k - 1);
      ByteLenConcat(Decimal(n / 10), [Digit(n % 10)]);
    }
    assert forall d: nat :: d < 10 ==> [Digit(d)][1..] == "" && CharBytes(Digit(d)) == 1;
  }

  // Text before the first `sep`, all of it if there is none.
  function UpTo(s: string, sep: char): (head: string)
    ensures sep !in head
  {
    if s == "" || s[0] == sep then "" else [s[0]] + UpTo(s[1..], sep)
  }

  lemma {:induction false} UpToSeparator(head: string, sep: char, rest: string)
    requires sep !in head
    ensures UpTo(head + [sep] + rest, sep) == head
  {
    if head != "" {
      assert (head + [sep] + rest)[1..] == head[1..] + [sep] + rest;
      UpToSeparator(head[1..], sep, rest);
    }
  }
}
