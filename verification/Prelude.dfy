/** Shared datatypes and arithmetic used by the component models. */
module Prelude {
  datatype Option<+T> = None | Some(value: T)

  datatype Result<+T, +E> = Ok(value: T) | Err(error: E)

  newtype Byte = b: int | 0 <= b < 256

  type Bytes = seq<Byte>

  const U64_MAX: nat := 0xFFFF_FFFF_FFFF_FFFF

  function Min(a: int, b: int): int {
    if a <= b then a else b
  }

  function Max(a: int, b: int): int {
    if a <= b then b else a
  }

  // `u64::saturating_add`
  function SaturatingAdd(a: nat, b: nat): nat {
    Min(a + b, U64_MAX)
  }

  // `saturating_sub` on unsigned integers
  function SaturatingSub(a: nat, b: nat): nat {
    if a <= b then 0 else a - b
  }

  // `clamp` on integers
  function Clamp(x: int, low: int, high: int): int {
    if x < low then low else if high < x then high else x
  }

  // Bytes one character takes in UTF-8: `str::len` counts these, `chars` does not.
  function CharBytes(c: char): nat {
    var n := c as int;
    if n < 0x80 then 1 else if n < 0x800 then 2 else if n < 0x1_0000 then 3 else 4
  }

  function ByteLen(s: string): nat {
    if s == "" then 0 else CharBytes(s[0]) + ByteLen(s[1..])
  }

  lemma {:induction false} ByteLenConcat(a: string, b: string)
    ensures ByteLen(a + b) == ByteLen(a) + ByteLen(b)
  {
    if a == "" {
      assert a + b == b;
    } else {
      assert (a + b)[1..] == a[1..] + b;
      ByteLenConcat(a[1..], b);
    }
  }

  lemma {:induction false} CharsBytes(s: string)
    ensures ByteLen(s) <= 4 * |s|
  {
    if s != "" {
      CharsBytes(s[1..]);
    }
  }

  lemma {:induction false} Regrouped<T>(a: seq<T>, b: seq<T>, c: seq<T>)
    ensures (a + b) + c == a + (b + c)
  {
  }

  // `chars().take(n).collect()`
  function TakeChars(s: string, n: nat): string {
    if |s| <= n then s else s[..n]
  }
}
