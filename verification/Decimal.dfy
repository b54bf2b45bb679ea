/** Decimal text as Python's str() and int() write and read it, shared by cache keys and container names. */
module Decimal {
  import opened Wrappers

  predicate IsDigit(ch: char) { '0' <= ch <= '9' }

  predicate AllDigits(s: string) { forall i :: 0 <= i < |s| ==> IsDigit(s[i]) }

  function DigitChar(d: nat): (ch: char)
    requires d < 10
    ensures IsDigit(ch) && (ch - '0') as int == d
  {
    '0' + d as char
  }

  /** str(n) for n >= 0 */
  function PrintNat(n: nat): (s: string)
    ensures |s| > 0 && AllDigits(s)
  {
    if n < 10 then [DigitChar(n)] else PrintNat(n / 10) + [DigitChar(n % 10)]
  }

  function PrintInt(n: int): string {
    if n < 0 then "-" + PrintNat(-n) else PrintNat(n)
  }

  function Value(s: string): nat
    requires AllDigits(s)
  {
    if |s| == 0 then 0 else 10 * Value(s[..|s| - 1]) + (s[|s| - 1] - '0') as int
  }

  /** int(s) for text without sign, space or underscore; None where Python raises ValueError. */
  function ParseNat(s: string): Option<nat> {
    if |s| > 0 && AllDigits(s) then Some(Value(s)) else None
  }

  lemma {:induction false} ValueOfPrint(n: nat)
    ensures Value(PrintNat(n)) == n
  {
    if n >= 10 {
      ValueOfPrint(n / 10);
      var s := PrintNat(n);
      assert s[..|s| - 1] == PrintNat(n / 10);
    }
  }

  /** Reading back what was printed. */
  lemma {:induction false} ParsePrint(n: nat)
    ensures ParseNat(PrintNat(n)) == Some(n)
  {
    ValueOfPrint(n);
  }

  lemma {:induction false} PrintIntInjective(m: int, n: int)
    requires PrintInt(m) == PrintInt(n)
    ensures m == n
  {
    var p, q := PrintNat(if m < 0 then -m else m), PrintNat(if n < 0 then -n else n);
    ParsePrint(if m < 0 then -m else m);
    ParsePrint(if n < 0 then -n else n);
    assert IsDigit(p[0]) && IsDigit(q[0]);
    if m < 0 { assert PrintInt(m)[0] == '-' && PrintInt(m)[1..] == p; }
    if n < 0 { assert PrintInt(n)[0] == '-' && PrintInt(n)[1..] == q; }
  }

  /** Text cut at its last separator can be put together in one way only. */
  lemma {:induction false} LastSeparator(x: string, t: string, y: string, u: string, sep: char)
    requires x + [sep] + t == y + [sep] + u
    requires sep !in t && sep !in u
    ensures x == y && t == u
  {
    var s := x + [sep] + t;
    assert s[|x|] == sep && s[|y|] == sep;
    assert forall i :: |x| < i < |s| ==> s[i] == t[i - |x| - 1];
    assert forall i :: |y| < i < |s| ==> s[i] == u[i - |y| - 1];
    assert s[..|x|] == x && s[..|y|] == y && s[|x| + 1..] == t && s[|y| + 1..] == u;
  }
}
