/** String helpers for the logging keys: Python's `sub in s` and the decimal
    rendering of an `int` inside an f-string. */
module Text {

  /** `t in s` for Python strings: `t` occurs somewhere in `s` as a substring. */
  predicate Contains(s: string, t: string)
    decreases |s|
  {
    t <= s || (|s| > 0 && Contains(s[1..], t))
  }

  /** The reference reading of `t in s`: `t` starts at some position of `s`. */
  ghost predicate Occurs(s: string, t: string)
  {
    exists i :: 0 <= i <= |s| && t <= s[i..]
  }

  /** The recursive scan finds `t` exactly when it occurs at some position. */
  lemma {:induction false} ContainsIffOccurs(s: string, t: string)
    ensures Contains(s, t) <==> Occurs(s, t)
    decreases |s|
  {
    if t <= s {
      assert s[0..] == s;
    } else if |s| > 0 {
      ContainsIffOccurs(s[1..], t);
      if Occurs(s, t) {
        var i :| 0 <= i <= |s| && t <= s[i..];
        assert i > 0 by { assert s[0..] == s; }
        assert s[1..][i - 1..] == s[i..];
      }
      if Occurs(s[1..], t) {
        var i :| 0 <= i <= |s[1..]| && t <= s[1..][i..];
        assert s[1..][i..] == s[i + 1..];
      }
    }
  }

  /** A character in front of `s` that is not the first character of `t`
      cannot start an occurrence of `t`. */
  lemma ContainsAfterForeignChar(c: char, s: string, t: string)
    requires |t| > 0 && t[0] != c
    ensures Contains([c] + s, t) == Contains(s, t)
  {
    assert ([c] + s)[1..] == s;
    assert ([c] + s)[0] == c;
  }

  /** A common prefix cancels: `pre + a == pre + b` only when `a == b`. */
  lemma PrefixCancels(pre: string, a: string, b: string)
    ensures (pre + a == pre + b) <==> a == b
  {
    if pre + a == pre + b {
      assert a == (pre + a)[|pre|..] == (pre + b)[|pre|..] == b;
    }
  }

  function Digit(d: nat): (c: char)
    requires d < 10
    ensures '0' <= c <= '9'
  {
    (('0' as int) + d) as char
  }

  /** `str(n)` / `f"{n}"` for a non-negative integer: its decimal digits,
      most significant first, without leading zeros. */
  function NatToString(n: nat): (s: string)
    ensures |s| > 0
    ensures forall i :: 0 <= i < |s| ==> '0' <= s[i] <= '9'
    ensures (|s| == 1) == (n < 10)
    decreases n
  {
    if n < 10 then [Digit(n)] else NatToString(n / 10) + [Digit(n % 10)]
  }

  /** The value of a digit character. */
  function DigitValue(c: char): int
  {
    c as int - '0' as int
  }

  /** Reference reading of a decimal numeral, most significant digit first. */
  ghost function DecimalValue(s: string): int
    decreases |s|
  {
    if s == [] then 0 else DecimalValue(s[..|s| - 1]) * 10 + DigitValue(s[|s| - 1])
  }

  /** The digits denote `n`, and only 0 itself is written with a leading `0`. */
  lemma {:induction false} NatToStringValue(n: nat)
    ensures DecimalValue(NatToString(n)) == n
    ensures n > 0 ==> NatToString(n)[0] != '0'
    decreases n
  {
    var s := NatToString(n);
    if n < 10 {
      assert s[..|s| - 1] == [];
    } else {
      var p := NatToString(n / 10);
      assert s == p + [Digit(n % 10)];
      assert s[..|s| - 1] == p;
      assert s[0] == p[0];
      NatToStringValue(n / 10);
    }
  }

  /** Distinct numbers are rendered as distinct strings. */
  lemma NatToStringInjective(a: nat, b: nat)
    requires NatToString(a) == NatToString(b)
    ensures a == b
  {
    NatToStringValue(a);
    NatToStringValue(b);
  }
}
