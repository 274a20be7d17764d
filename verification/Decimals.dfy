/** Canonical decimal numbers (crates/loams-common/src/id.rs; `canonical_u64` of
    crates/loams-collection/src/token.rs). */
module Decimals {
  import opened Prelude

  predicate IsDigit(c: char) {
    '0' <= c <= '9'
  }

  function DigitValue(c: char): nat
    requires IsDigit(c)
  {
    (c as int) - ('0' as int)
  }

  function Digit(d: nat): (c: char)
    requires d < 10
    ensures IsDigit(c) && DigitValue(c) == d
  {
    (('0' as int) + d) as char
  }

  predicate Digits(s: string) {
    forall i :: 0 <= i < |s| ==> IsDigit(s[i])
  }

  /** The decimal spelling of `n`. */
  function Print(n: nat): (s: string)
    ensures s != ""
  {
    if n < 10 then [Digit(n)] else Print(n / 10) + [Digit(n % 10)]
  }

  /** What the digits `s` stand for. */
  function Value(s: string): (n: nat)
    requires Digits(s)
  {
    if s == "" then 0 else 10 * Value(s[..|s| - 1]) + DigitValue(s[|s| - 1])
  }

  /** Digits only, at least one, and no leading zero except in "0". */
  predicate Canonical(s: string) {
    s != "" && Digits(s) && (s == "0" || s[0] != '0')
  }

  /** A canonical decimal `u64`. */
  function Parse(s: string): Option<nat> {
    if Canonical(s) && Value(s) <= U64_MAX then Some(Value(s)) else None
  }

  lemma {:induction false} PrintCanonical(n: nat)
    ensures Canonical(Print(n)) && Value(Print(n)) == n
    ensures n > 0 ==> Print(n)[0] != '0'
  {
    if n < 10 {
      assert Print(n)[..0] == "";
    } else {
      PrintCanonical(n / 10);
      var s := Print(n);
      assert s[..|s| - 1] == Print(n / 10);
    }
  }

  lemma {:induction false} CanonicalPrints(s: string)
    requires Canonical(s)
    ensures Print(Value(s)) == s
    ensures s != "0" ==> Value(s) > 0
  {
    var n := |s| - 1;
    var front, last := s[..n], s[n];
    if n == 0 {
      assert front == "" && s == [last];
      assert Digit(DigitValue(last)) == last;
    } else {
      assert front[0] == s[0];
      CanonicalPrints(front);
      assert Value(s) / 10 == Value(front) && Value(s) % 10 == DigitValue(last);
      assert Digit(DigitValue(last)) == last;
    }
  }

  /** Parsing and printing undo each other: every number has one spelling. */
  lemma ParsePrint(s: string, n: nat)
    ensures Parse(s) == Some(n) <==> n <= U64_MAX && s == Print(n)
  {
    PrintCanonical(n);
    if Canonical(s) {
      CanonicalPrints(s);
    }
  }
}
