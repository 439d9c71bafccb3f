/** Small helpers shared by the whole model: an optional value, PHP/JavaScript
    truthiness of strings, and decimal rendering and parsing of integers (the
    `%d` of PHP's sprintf, `${n}` in JavaScript templates, `parseInt(s, 10)`). */
module Common {

  datatype Option<+T> = None | Some(value: T) {
    function GetOr(default: T): T {
      match this
      case Some(v) => v
      case None => default
    }
  }

  /** PHP truthiness of a string: only "" and "0" are falsy (`! $s`, `empty( $s )`). */
  predicate PhpFalsy(s: string) {
    s == "" || s == "0"
  }

  /** PHP's `$x ?? $default` on an optional string followed by a truthiness test. */
  predicate PhpTruthy(s: Option<string>) {
    s.Some? && !PhpFalsy(s.value)
  }

  predicate IsDigit(c: char) {
    '0' <= c <= '9'
  }

  predicate AllDigits(s: string) {
    forall i :: 0 <= i < |s| ==> IsDigit(s[i])
  }

  function DigitChar(d: nat): (c: char)
    requires d < 10
    ensures IsDigit(c) && c as int - '0' as int == d
  {
    (d + '0' as int) as char
  }

  function DigitValue(c: char): (d: nat)
    requires IsDigit(c)
    ensures d < 10
  {
    c as int - '0' as int
  }

  /** Decimal digits of a natural number, most significant first, no leading zeros. */
  function NatToString(n: nat): (s: string)
    ensures |s| >= 1 && AllDigits(s)
    ensures |s| > 1 ==> s[0] != '0'
    decreases n
  {
    if n < 10 then [DigitChar(n)] else NatToString(n / 10) + [DigitChar(n % 10)]
  }

  /** The value of a non-empty run of decimal digits (`parseInt( s, 10 )` on `\d+`). */
  function ParseDigits(s: string): nat
    requires AllDigits(s)
    decreases |s|
  {
    if s == [] then 0 else ParseDigits(s[..|s| - 1]) * 10 + DigitValue(s[|s| - 1])
  }

  /** PHP's `sprintf( '%d', $i )` and JavaScript's `${ i }` for an integer. */
  function IntToString(i: int): (s: string)
    ensures |s| >= 1
  {
    if i < 0 then "-" + NatToString(-i) else NatToString(i)
  }

  /** Reads back a rendering of `IntToString`: an optional minus sign and digits. */
  function ParseInt(s: string): Option<int> {
    if |s| >= 2 && s[0] == '-' && AllDigits(s[1..]) then Some(-(ParseDigits(s[1..]) as int))
    else if |s| >= 1 && AllDigits(s) then Some(ParseDigits(s))
    else None
  }

  lemma {:induction false} ParseNatToString(n: nat)
    ensures ParseDigits(NatToString(n)) == n
    decreases n
  {
    if n >= 10 {
      var s := NatToString(n);
      var prefix := NatToString(n / 10);
      assert s[..|s| - 1] == prefix;
      ParseNatToString(n / 10);
    }
  }

  /** The decimal rendering of an integer reads back as the same integer. */
  lemma IntToStringRoundTrip(i: int)
    ensures ParseInt(IntToString(i)) == Some(i)
  {
    if i < 0 {
      var s := IntToString(i);
      assert s[1..] == NatToString(-i);
      ParseNatToString(-i);
    } else {
      ParseNatToString(i);
    }
  }

  /** Distinct integers render differently. */
  lemma IntToStringInjective(i: int, j: int)
    requires IntToString(i) == IntToString(j)
    ensures i == j
  {
    IntToStringRoundTrip(i);
    IntToStringRoundTrip(j);
  }

  /** Lower-casing of the ASCII letters A to Z only. A case-insensitive regular
      expression also folds non-ASCII letters; this does not. */
  function Lower(c: char): (l: char)
    ensures 'A' <= c <= 'Z' ==> l as int == c as int + 32
    ensures !('A' <= c <= 'Z') ==> l == c
  {
    if 'A' <= c <= 'Z' then (c as int + 32) as char else c
  }

  /** `p` occurs in `s` at position `i`, letters compared case-insensitively. */
  predicate StartsWithAt(s: string, i: nat, p: string) {
    i + |p| <= |s| && forall k :: 0 <= k < |p| ==> Lower(s[i + k]) == Lower(p[k])
  }

  /** Text that is literally `p` at `i` starts with `p` there. */
  lemma StartsWithSlice(s: string, i: nat, p: string)
    requires i + |p| <= |s| && s[i..i + |p|] == p
    ensures StartsWithAt(s, i, p)
  {
    forall k | 0 <= k < |p| ensures Lower(s[i + k]) == Lower(p[k]) {
      assert s[i + k] == s[i..i + |p|][k];
    }
  }

  /** Length of the run of decimal digits in `s` starting at `i`. */
  function DigitRun(s: string, i: nat): (n: nat)
    requires i <= |s|
    ensures i + n <= |s| && AllDigits(s[i..i + n])
    ensures i + n < |s| ==> !IsDigit(s[i + n])
    decreases |s| - i
  {
    if i < |s| && IsDigit(s[i]) then
      var n := DigitRun(s, i + 1);
      assert s[i..i + 1 + n] == [s[i]] + s[i + 1..i + 1 + n];
      1 + n
    else 0
  }

  /** The value of the run of digits starting at `i`. */
  function DigitsValue(s: string, i: nat): nat
    requires i <= |s|
  {
    ParseDigits(s[i..i + DigitRun(s, i)])
  }

  /** A digit run that reads `d` has the value of `d`. */
  lemma DigitsValueOf(s: string, i: nat, d: string)
    requires i <= |s| && DigitRun(s, i) == |d| && s[i..i + |d|] == d
    ensures DigitsValue(s, i) == ParseDigits(d)
  {
  }

  /** The least position `l` in `[i, end)` at which `p` holds, as a leftmost
      regular-expression search finds the first match. */
  function FirstWhere(p: nat -> bool, i: nat, end: nat): (r: Option<nat>)
    ensures r.Some? ==> i <= r.value < end && p(r.value)
    ensures r.Some? ==> forall l :: i <= l < r.value ==> !p(l)
    ensures r.None? ==> forall l :: i <= l < end ==> !p(l)
    decreases end - i
  {
    if i >= end then None
    else if p(i) then Some(i)
    else FirstWhere(p, i + 1, end)
  }

  /** A digit run of length `n` that ends at a non-digit or at the end is
      exactly what `DigitRun` measures. */
  lemma {:induction false} DigitRunExact(s: string, i: nat, n: nat)
    requires i + n <= |s| && AllDigits(s[i..i + n])
    requires i + n == |s| || !IsDigit(s[i + n])
    ensures DigitRun(s, i) == n
    decreases n
  {
    if n > 0 {
      assert IsDigit(s[i..i + n][0]);
      assert s[i + 1..i + n] == s[i..i + n][1..];
      DigitRunExact(s, i + 1, n - 1);
    }
  }
}
