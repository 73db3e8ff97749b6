/**
 * The string operations the forms and the upload hook rely on:
 * `split(c)[0]`, `split(c).pop()`, `toLowerCase()` (ASCII letters only),
 * the decimal rendering of an integer (`Number.prototype.toString()`), and
 * the shape of an ISO 8601 timestamp as `Date.prototype.toISOString()`
 * produces it.
 */
module Text {

  /** `s.split(c)[0]`: the text before the first `c`, or all of `s` when there is none. */
  function BeforeFirst(s: string, c: char): (r: string)
    ensures r <= s
    ensures c !in r
    ensures |r| < |s| ==> s[|r|] == c
  {
    if s == [] then []
    else if s[0] == c then []
    else [s[0]] + BeforeFirst(s[1..], c)
  }

  /** `s.split(c).pop()`: the text after the last `c`, or all of `s` when there is none. */
  function AfterLast(s: string, c: char): (r: string)
    ensures |r| <= |s| && r == s[|s| - |r|..]
    ensures c !in r
    ensures |r| < |s| ==> s[|s| - |r| - 1] == c
  {
    if s == [] then []
    else if s[|s| - 1] == c then []
    else AfterLast(s[..|s| - 1], c) + [s[|s| - 1]]
  }

  /** The contract of `BeforeFirst` determines it: a `c` at `k` with none before it is where it stops. */
  lemma BeforeFirstAt(s: string, c: char, k: nat)
    requires k < |s| && s[k] == c && c !in s[..k]
    ensures BeforeFirst(s, c) == s[..k]
  {
  }

  /** The text before the first `c` of `p + rest` is `p` when `p` has no `c` and `rest` starts with one. */
  lemma BeforeFirstOfConcat(p: string, rest: string, c: char)
    requires c !in p && |rest| > 0 && rest[0] == c
    ensures BeforeFirst(p + rest, c) == p
  {
    var s := p + rest;
    assert s[..|p|] == p;
    BeforeFirstAt(s, c, |p|);
  }

  /** The contract of `AfterLast` determines it: a `c` at `k` with none after it is where it starts. */
  lemma AfterLastAt(s: string, c: char, k: nat)
    requires k < |s| && s[k] == c && c !in s[k + 1..]
    ensures AfterLast(s, c) == s[k + 1..]
  {
  }

  /** Without any `c`, `split(c).pop()` is the whole string. */
  lemma AfterLastNone(s: string, c: char)
    requires c !in s
    ensures AfterLast(s, c) == s
  {
  }

  function LowerChar(ch: char): char
  {
    if 'A' <= ch <= 'Z' then (ch as int - 'A' as int + 'a' as int) as char else ch
  }

  /** `toLowerCase()` on the ASCII letters. */
  function Lower(s: string): (r: string)
    ensures |r| == |s|
    ensures forall i :: 0 <= i < |s| ==> r[i] == LowerChar(s[i])
  {
    if s == [] then [] else [LowerChar(s[0])] + Lower(s[1..])
  }

  /** Lowering twice is lowering once, and lowering neither adds nor removes a '.'. */
  lemma LowerFacts(s: string)
    ensures Lower(Lower(s)) == Lower(s)
    ensures '.' in Lower(s) <==> '.' in s
  {
    if '.' in Lower(s) {
      var i :| 0 <= i < |s| && Lower(s)[i] == '.';
      assert s[i] == '.';
    }
    if '.' in s {
      var i :| 0 <= i < |s| && s[i] == '.';
      assert Lower(s)[i] == '.';
    }
  }

  predicate IsDigit(ch: char)
  {
    '0' <= ch <= '9'
  }

  function DigitChar(d: nat): (ch: char)
    requires d < 10
    ensures IsDigit(ch)
  {
    ('0' as int + d) as char
  }

  function DigitValue(ch: char): nat
    requires IsDigit(ch)
  {
    ch as int - '0' as int
  }

  /** The decimal rendering of a non-negative integer, `String(n)`. */
  function NatToString(n: nat): (r: string)
    ensures |r| > 0
    ensures forall i :: 0 <= i < |r| ==> IsDigit(r[i])
  {
    if n < 10 then [DigitChar(n)] else NatToString(n / 10) + [DigitChar(n % 10)]
  }

  /** Reads a string of decimal digits back as a number. */
  function ParseDigits(s: string): nat
    requires forall i :: 0 <= i < |s| ==> IsDigit(s[i])
  {
    if s == [] then 0 else ParseDigits(s[..|s| - 1]) * 10 + DigitValue(s[|s| - 1])
  }

  /** Reading the rendering back gives the number: the rendering loses nothing. */
  lemma {:induction false} ParseNatToString(n: nat)
    ensures ParseDigits(NatToString(n)) == n
  {
    if n >= 10 {
      ParseNatToString(n / 10);
      var s := NatToString(n);
      assert s[..|s| - 1] == NatToString(n / 10);
    }
  }

  /** A rendered number holds digits only, so no other character. */
  lemma NatToStringHasNo(n: nat, c: char)
    requires !IsDigit(c)
    ensures c !in NatToString(n)
  {
  }

  /** Different numbers render differently. */
  lemma NatToStringInjective(m: nat, n: nat)
    requires NatToString(m) == NatToString(n)
    ensures m == n
  {
    ParseNatToString(m);
    ParseNatToString(n);
  }

  /** `YYYY-MM-DD`. */
  ghost predicate IsIsoDate(s: string)
  {
    |s| == 10 && s[4] == '-' && s[7] == '-'
    && forall i :: 0 <= i < 10 && i != 4 && i != 7 ==> IsDigit(s[i])
  }

  /** `YYYY-MM-DDTHH:mm:ss.sssZ`, the form `toISOString()` returns for years 0 to 9999. */
  ghost predicate IsIsoTimestamp(s: string)
  {
    |s| == 24 && IsIsoDate(s[..10]) && s[10] == 'T'
    && s[13] == ':' && s[16] == ':' && s[19] == '.' && s[23] == 'Z'
    && forall i :: 11 <= i < 23 && i != 13 && i != 16 && i != 19 ==> IsDigit(s[i])
  }

  /** `toISOString().split('T')[0]` is the calendar-date part of the timestamp. */
  lemma DatePartOfTimestamp(s: string)
    requires IsIsoTimestamp(s)
    ensures BeforeFirst(s, 'T') == s[..10]
    ensures IsIsoDate(BeforeFirst(s, 'T'))
  {
    assert forall i :: 0 <= i < 10 ==> s[..10][i] != 'T';
    BeforeFirstAt(s, 'T', 10);
  }
}
