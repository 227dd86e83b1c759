/** Shared vocabulary of the model: an optional value standing for a C
    pointer that may be NULL, the Linux errno values the daemons return,
    and byte-level helpers. */
module Common {

  /** A value or its absence (a NULL pointer in the C code). */
  datatype Option<+T> = None | Some(value: T)

  /** Linux errno values returned by the plugin and the daemons. */
  const OK: int := 0
  const EPERM: int := 1
  const ENOENT: int := 2
  const ENXIO: int := 6
  const EAGAIN: int := 11
  const EFAULT: int := 14
  const EEXIST: int := 17
  const EINVAL: int := 22
  const ENODATA: int := 61
  const EOPNOTSUPP: int := 95
  const EPFNOSUPPORT: int := 96
  const EHOSTDOWN: int := 112
  const EHOSTUNREACH: int := 113
  const ENOMEM: int := 12

  /** An octet. */
  newtype byte = x: int | 0 <= x < 256

  /** Reversal of a sequence: element i of the result is element |s|-1-i of s. */
  function Reverse<T>(s: seq<T>): (r: seq<T>)
    ensures |r| == |s|
  {
    if s == [] then [] else Reverse(s[1..]) + [s[0]]
  }

  lemma {:induction false} ReverseAt<T>(s: seq<T>, i: nat)
    requires i < |s|
    ensures Reverse(s)[i] == s[|s| - 1 - i]
  {
    if i < |s| - 1 {
      ReverseAt(s[1..], i);
    }
  }


  /** 2 to the power k. */
  function Pow2(k: nat): (p: nat)
    ensures p >= 1
  {
    if k == 0 then 1 else 2 * Pow2(k - 1)
  }

  /** The decimal digits a char stands for, or -1. */
  function DigitValue(c: char): (d: int)
    ensures -1 <= d <= 9
    ensures d >= 0 <==> '0' <= c <= '9'
  {
    if '0' <= c <= '9' then (c as int) - ('0' as int) else -1
  }

  /** Every character of s is a decimal digit. */
  predicate AllDigits(s: string)
  {
    forall i :: 0 <= i < |s| ==> '0' <= s[i] <= '9'
  }

  /** Number of leading decimal digits of s. */
  function DigitPrefixLen(s: string): (n: nat)
    ensures n <= |s|
    ensures AllDigits(s[..n])
    ensures n < |s| ==> !('0' <= s[n] <= '9')
  {
    if s == [] || !('0' <= s[0] <= '9') then 0
    else
      var n := 1 + DigitPrefixLen(s[1..]);
      assert s[..n] == [s[0]] + s[1..][..n - 1];
      n
  }

  /** Value of a string of decimal digits. */
  function DecimalValue(s: string): (v: nat)
    requires AllDigits(s)
  {
    if s == [] then 0 else DecimalValue(s[..|s| - 1]) * 10 + DigitValue(s[|s| - 1]) as nat
  }

  /** C's `isspace` in the "C" locale: space, and tab through carriage
      return ('\t', '\n', '\v', '\f', '\r'). */
  predicate IsSpace(c: char)
  {
    c == ' ' || c == '\t' || c == '\n' || c == '\U{000B}' || c == '\U{000C}' || c == '\r'
  }

  /** s without its leading white space. */
  function SkipSpaces(s: string): (r: string)
    ensures |r| <= |s|
  {
    if s != [] && IsSpace(s[0]) then SkipSpaces(s[1..]) else s
  }

  /** C's atoi: leading white space, an optional sign, then the longest
      run of digits; anything unparsable gives 0. */
  function Atoi(s: string): int
  {
    var t := SkipSpaces(s);
    if t != [] && (t[0] == '-' || t[0] == '+') then
      var digits := t[1..][..DigitPrefixLen(t[1..])];
      if t[0] == '-' then -(DecimalValue(digits) as int) else DecimalValue(digits) as int
    else
      DecimalValue(t[..DigitPrefixLen(t)])
  }

  /** True if every element of s is distinct. */
  predicate Distinct<T(==)>(s: seq<T>)
  {
    forall i, j :: 0 <= i < j < |s| ==> s[i] != s[j]
  }

  /** The decimal digits of n, most significant first. */
  function NatToDecimal(n: nat): (s: string)
    ensures |s| >= 1
    ensures forall i :: 0 <= i < |s| ==> '0' <= s[i] <= '9'
  {
    if n < 10 then [(('0' as int) + n) as char]
    else NatToDecimal(n / 10) + [(('0' as int) + n % 10) as char]
  }

  lemma {:induction false} NatToDecimalValue(n: nat)
    ensures DecimalValue(NatToDecimal(n)) == n
  {
    var s := NatToDecimal(n);
    if n >= 10 {
      NatToDecimalValue(n / 10);
      assert s[..|s| - 1] == NatToDecimal(n / 10);
    }
  }

  lemma {:induction false} DigitPrefixOfDigits(d: string, rest: string)
    requires forall i :: 0 <= i < |d| ==> '0' <= d[i] <= '9'
    requires rest == [] || !('0' <= rest[0] <= '9')
    ensures DigitPrefixLen(d + rest) == |d|
  {
    if d != [] {
      assert (d + rest)[1..] == d[1..] + rest;
      DigitPrefixOfDigits(d[1..], rest);
    }
  }

  /** `%d` / `%lld` formatting of an integer. */
  function IntToDecimal(n: int): (s: string)
    ensures n >= 0 ==> s == NatToDecimal(n)
    ensures n < 0 ==> s == "-" + NatToDecimal(-n)
  {
    if n < 0 then "-" + NatToDecimal(-n) else NatToDecimal(n)
  }
}
