/** Decimal rendering of counters (Java `Integer.toString` on a positive int) and
    the inverse reading used to argue that generated names never collide. */
module Decimal {

  predicate IsDigit(c: char) {
    '0' <= c <= '9'
  }

  predicate AllDigits(s: string) {
    forall i :: 0 <= i < |s| ==> IsDigit(s[i])
  }

  function Digit(d: nat): (c: char)
    requires d < 10
    ensures IsDigit(c)
  {
    ('0' as int + d) as char
  }

  function DigitValue(c: char): (d: nat)
    requires IsDigit(c)
    ensures d < 10
  {
    c as int - '0' as int
  }

  /** The decimal representation of `n`, most significant digit first, without sign. */
  function ToString(n: nat): (r: string)
    ensures |r| > 0
    ensures AllDigits(r)
    ensures '-' !in r
  {
    if n < 10 then [Digit(n)] else ToString(n / 10) + [Digit(n % 10)]
  }

  /** Reads a string of decimal digits back into the number it denotes. */
  function Parse(s: string): nat
    requires AllDigits(s)
  {
    if |s| == 0 then 0 else Parse(s[..|s| - 1]) * 10 + DigitValue(s[|s| - 1])
  }

  /** Reading back a rendered number gives the number: rendering is injective. */
  lemma {:induction false} ParseToString(n: nat)
    ensures Parse(ToString(n)) == n
  {
    var r := ToString(n);
    if n < 10 {
      assert r == [Digit(n)];
      assert r[..0] == [];
    } else {
      ParseToString(n / 10);
      assert r[..|r| - 1] == ToString(n / 10);
      assert r[|r| - 1] == Digit(n % 10);
    }
  }

  lemma ToStringInjective(m: nat, n: nat)
    requires ToString(m) == ToString(n)
    ensures m == n
  {
    ParseToString(m);
    ParseToString(n);
  }

  /** The characters after the last '-' of `s` (all of `s` when it has none). */
  function SuffixAfterLastDash(s: string): (r: string)
    ensures '-' !in r
    ensures |r| <= |s|
  {
    if |s| == 0 then ""
    else if s[|s| - 1] == '-' then ""
    else SuffixAfterLastDash(s[..|s| - 1]) + [s[|s| - 1]]
  }

  /** A dash-free tail after a '-' is exactly what `SuffixAfterLastDash` recovers. */
  lemma {:induction false} SuffixOfDashed(p: string, t: string)
    requires '-' !in t
    ensures SuffixAfterLastDash(p + "-" + t) == t
  {
    var s := p + "-" + t;
    if |t| == 0 {
      assert s[|s| - 1] == '-';
    } else {
      var t' := t[..|t| - 1];
      assert s[..|s| - 1] == p + "-" + t';
      assert s[|s| - 1] == t[|t| - 1];
      assert '-' !in t' by {
        forall i | 0 <= i < |t'| ensures t'[i] != '-' {
          assert t'[i] == t[i];
        }
      }
      SuffixOfDashed(p, t');
      assert t == t' + [t[|t| - 1]];
    }
  }
}
