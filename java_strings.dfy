/**
 * The few pieces of java.lang.String, Integer and java.util.regex.Pattern
 * that the core relies on: lower-casing, decimal printing and parsing of
 * `int`, and splitting on a one-character pattern.
 */
module JavaStrings {
  import opened Common

  // ---------------------------------------------------------------------
  // String.toLowerCase (ASCII letters only)
  // ---------------------------------------------------------------------

  function LowerChar(c: char): char
  {
    if 'A' <= c <= 'Z' then (c as int + 32) as char else c
  }

  /** `s.toLowerCase()`. */
  function Lower(s: string): (r: string)
    ensures |r| == |s|
    ensures forall i :: 0 <= i < |s| ==> r[i] == LowerChar(s[i])
  {
    seq(|s|, i requires 0 <= i < |s| => LowerChar(s[i]))
  }

  /** Lower-casing a lower-cased name changes nothing. */
  lemma LowerIdempotent(s: string)
    ensures Lower(Lower(s)) == Lower(s)
  {
    assert forall i :: 0 <= i < |s| ==> LowerChar(LowerChar(s[i])) == LowerChar(s[i]);
  }

  // ---------------------------------------------------------------------
  // Integer.toString and Integer.parseInt (radix 10)
  // ---------------------------------------------------------------------

  predicate IsDigit(c: char)
  {
    '0' <= c <= '9'
  }

  predicate AllDigits(s: string)
  {
    forall i :: 0 <= i < |s| ==> IsDigit(s[i])
  }

  function DigitChar(d: nat): char
    requires d < 10
  {
    ('0' as int + d) as char
  }

  /** The value of a string of decimal digits, most significant first. */
  function DigitsValue(s: string): nat
    requires AllDigits(s)
  {
    if |s| == 0 then 0
    else DigitsValue(s[..|s| - 1]) * 10 + (s[|s| - 1] as int - '0' as int)
  }

  /** The shortest decimal spelling of n. */
  function NatToDigits(n: nat): (r: string)
    ensures |r| > 0 && AllDigits(r)
  {
    if n < 10 then [DigitChar(n)] else NatToDigits(n / 10) + [DigitChar(n % 10)]
  }

  lemma {:induction false} DigitsRoundTrip(n: nat)
    ensures DigitsValue(NatToDigits(n)) == n
  {
    var s := NatToDigits(n);
    if n >= 10 {
      DigitsRoundTrip(n / 10);
      assert s[..|s| - 1] == NatToDigits(n / 10);
    }
  }

  /** `Integer.toString(i)` / `"" + i`. */
  function IntToString(i: int): string
  {
    if i < 0 then "-" + NatToDigits(-i) else NatToDigits(i)
  }

  predicate InInt32(v: int)
  {
    INT_MIN <= v <= INT_MAX
  }

  /**
   * `Integer.parseInt(s)`: an optional sign followed by at least one digit,
   * whose value fits in an `int`; None stands for NumberFormatException.
   */
  function ParseInt(s: string): (r: Option<Int32>)
    ensures r.Some? ==> |s| > 0
  {
    if |s| == 0 then None
    else if s[0] == '-' || s[0] == '+' then
      if |s| == 1 || !AllDigits(s[1..]) then None
      else
        var v: int := if s[0] == '-' then 0 - DigitsValue(s[1..]) as int else DigitsValue(s[1..]);
        if InInt32(v) then Some(v) else None
    else if !AllDigits(s) then None
    else
      var v := DigitsValue(s);
      if InInt32(v) then Some(v) else None
  }

  /** Printing an `int` and parsing it back gives the same `int`. */
  lemma ParseIntToString(i: Int32)
    ensures ParseInt(IntToString(i)) == Some(i)
  {
    if i < 0 {
      var n: nat := -(i as int);
      DigitsRoundTrip(n);
      assert IntToString(i)[1..] == NatToDigits(n);
    } else {
      DigitsRoundTrip(i);
    }
  }

  /** Different numbers print differently. */
  lemma NatToDigitsInjective(a: nat, b: nat)
    requires a != b
    ensures NatToDigits(a) != NatToDigits(b)
  {
    DigitsRoundTrip(a);
    DigitsRoundTrip(b);
  }

  /** A printed `int` holds neither the list separator nor the field separator. */
  lemma IntToStringHasNo(i: int, c: char)
    requires c != '-' && !IsDigit(c)
    ensures c !in IntToString(i)
  {
    var s := IntToString(i);
    var d := NatToDigits(if i < 0 then -i else i);
    assert forall k :: 0 <= k < |d| ==> d[k] != c;
  }

  // ---------------------------------------------------------------------
  // Pattern.split for a one-character literal pattern
  // ---------------------------------------------------------------------

  /** Position of the first `d` in s (requires that there is one). */
  function IndexOf(s: string, d: char): (k: nat)
    requires d in s
    ensures k < |s| && s[k] == d && d !in s[..k]
  {
    if s[0] == d then 0 else 1 + IndexOf(s[1..], d)
  }

  /**
   * `Pattern.compile(d).split(s, limit)` for limit >= 1: at most `limit`
   * pieces, the last one holding the rest of the input, separators included.
   */
  function SplitLimit(s: string, d: char, limit: nat): (r: seq<string>)
    requires limit >= 1
    ensures 1 <= |r| <= limit
    decreases limit
  {
    if limit == 1 || d !in s then [s]
    else
      var k := IndexOf(s, d);
      [s[..k]] + SplitLimit(s[k + 1..], d, limit - 1)
  }

  /** Every piece between two separators, empty ones included. */
  function SplitAll(s: string, d: char): (r: seq<string>)
    ensures |r| >= 1
    decreases |s|
  {
    if d !in s then [s]
    else
      var k := IndexOf(s, d);
      [s[..k]] + SplitAll(s[k + 1..], d)
  }

  function DropTrailingEmpty(ps: seq<string>): (r: seq<string>)
    ensures |r| <= |ps| && r == ps[..|r|]
    ensures |r| > 0 ==> r[|r| - 1] != ""
  {
    if |ps| == 0 then []
    else if ps[|ps| - 1] == "" then DropTrailingEmpty(ps[..|ps| - 1])
    else ps
  }

  /**
   * `Pattern.compile(d).split(s)` (limit 0): an input without the separator
   * comes back whole, even when empty; otherwise the trailing empty pieces
   * are removed.
   */
  function Split(s: string, d: char): seq<string>
  {
    if d !in s then [s] else DropTrailingEmpty(SplitAll(s, d))
  }

  /** Splitting with a limit peels off the piece before the first separator. */
  lemma SplitLimitStep(a: string, d: char, b: string, limit: nat)
    requires d !in a && limit >= 2
    ensures SplitLimit(a + [d] + b, d, limit) == [a] + SplitLimit(b, d, limit - 1)
  {
    FirstSeparator(a, d, b);
  }

  /** Splitting on every separator peels off the piece before the first one. */
  lemma SplitAllStep(a: string, d: char, b: string)
    requires d !in a
    ensures SplitAll(a + [d] + b, d) == [a] + SplitAll(b, d)
  {
    FirstSeparator(a, d, b);
  }

  /** Splitting `a + [d] + b` at its first separator, where a holds none. */
  lemma FirstSeparator(a: string, d: char, b: string)
    requires d !in a
    ensures d in a + [d] + b
    ensures IndexOf(a + [d] + b, d) == |a|
    ensures (a + [d] + b)[..|a|] == a && (a + [d] + b)[|a| + 1..] == b
  {
    var s := a + [d] + b;
    assert s[|a|] == d;
    assert s[..|a|] == a;
  }
}
