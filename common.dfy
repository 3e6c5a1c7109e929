/** Small value types and string helpers shared by the condition and the front end:
    the failure-carrying wrappers that stand for PHP exceptions and `false` returns,
    PHP's integer-to-string conversion, and the ASCII case folding of `stripos`. */
module Common {

  datatype Option<+T> = None | Some(value: T)

  /** `Err` stands for an exception the PHP code throws; its payload is the message the
      code writes, which is not always the message PHP ends up reporting. */
  datatype Result<+T, +E> = Ok(value: T) | Err(error: E)

  function DigitChar(d: nat): (c: char)
    requires d < 10
    ensures '0' <= c <= '9'
  {
    ('0' as int + d) as char
  }

  function DigitValue(c: char): int
  {
    c as int - '0' as int
  }

  /** The decimal digits of `n`, most significant first, without leading zeros. */
  function NatToString(n: nat): (s: string)
    ensures 1 <= |s|
    ensures forall i :: 0 <= i < |s| ==> '0' <= s[i] <= '9'
  {
    if n < 10 then [DigitChar(n)] else NatToString(n / 10) + [DigitChar(n % 10)]
  }

  /** Reads a string of decimal digits back as a number (the inverse of NatToString). */
  function NatOf(s: string): int
  {
    if s == [] then 0 else 10 * NatOf(s[..|s| - 1]) + DigitValue(s[|s| - 1])
  }

  lemma {:induction false} NatOfNatToString(n: nat)
    ensures NatOf(NatToString(n)) == n
  {
    if n >= 10 {
      var s := NatToString(n);
      assert s[..|s| - 1] == NatToString(n / 10);
      NatOfNatToString(n / 10);
    }
  }

  /** PHP's conversion of an int to a string, as done by the `.` operator. */
  function IntToString(n: int): (s: string)
    ensures 1 <= |s|
    ensures s[0] == '-' <==> n < 0
  {
    if n < 0 then "-" + NatToString(-n) else NatToString(n)
  }

  lemma NatToStringInjective(a: nat, b: nat)
    requires NatToString(a) == NatToString(b)
    ensures a == b
  {
    NatOfNatToString(a);
    NatOfNatToString(b);
  }

  /** Different integers print differently, so a printed id identifies its number. */
  lemma IntToStringInjective(a: int, b: int)
    requires IntToString(a) == IntToString(b)
    ensures a == b
  {
    if a < 0 {
      assert NatToString(-a) == IntToString(a)[1..] == NatToString(-b);
      NatToStringInjective(-a, -b);
    } else {
      NatToStringInjective(a, b);
    }
  }

  /** ASCII lower-casing, as PHP's case-insensitive string functions do it. */
  function Lower(c: char): char
  {
    if 'A' <= c <= 'Z' then (c as int + 32) as char else c
  }

  /** `stripos(s, prefix) === 0`: `s` begins with `prefix`, ignoring ASCII case. */
  predicate StartsWithIgnoringCase(s: string, prefix: string)
  {
    |prefix| <= |s| && forall i :: 0 <= i < |prefix| ==> Lower(s[i]) == Lower(prefix[i])
  }
}
