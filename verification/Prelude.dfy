/** Shared vocabulary: optional values, results, duplicate-free sequences, the
    pigeonhole principle and decimal numerals (Python's `str` on naturals). */
module Prelude {

  datatype Option<+T> = None | Some(value: T)

  datatype Result<+T, +E> = Ok(value: T) | Err(error: E)

  ghost predicate NoDup<T>(s: seq<T>) {
    forall i, j :: 0 <= i < j < |s| ==> s[i] != s[j]
  }

  function Elems<T(==)>(s: seq<T>): set<T> {
    set i | 0 <= i < |s| :: s[i]
  }

  lemma ElemsSnoc<T>(s: seq<T>, x: T)
    ensures Elems(s + [x]) == Elems(s) + {x}
    ensures NoDup(s) && x !in Elems(s) ==> NoDup(s + [x])
  {
    assert forall i :: 0 <= i < |s| ==> (s + [x])[i] == s[i];
    assert (s + [x])[|s|] == x;
    forall y | y in Elems(s)
      ensures y in Elems(s + [x])
    {
      var i :| 0 <= i < |s| && s[i] == y;
      assert (s + [x])[i] == y;
    }
  }

  /** A duplicate-free sequence drawn from a finite set is no longer than the set. */
  lemma {:induction false} Pigeonhole<T>(s: seq<T>, u: set<T>)
    requires NoDup(s)
    requires forall i :: 0 <= i < |s| ==> s[i] in u
    ensures |s| <= |u|
  {
    if s == [] {
    } else {
      var n := |s| - 1;
      Pigeonhole(s[..n], u - {s[n]});
    }
  }

  lemma {:induction false} NoDupSize<T>(s: seq<T>)
    requires NoDup(s)
    ensures |Elems(s)| == |s|
  {
    if s == [] {
    } else {
      var front, last := s[..|s| - 1], s[|s| - 1];
      NoDupSize(front);
      ElemsSnoc(front, last);
      assert s == front + [last];
      assert last !in Elems(front);
    }
  }

  function Digit(d: nat): char
    requires d < 10
  {
    ['0', '1', '2', '3', '4', '5', '6', '7', '8', '9'][d]
  }

  function Decimal(n: nat): string {
    if n < 10 then [Digit(n)] else Decimal(n / 10) + [Digit(n % 10)]
  }

  /** The value of a numeral, read from the left. */
  function ValueOf(s: string): int {
    if s == "" then 0 else 10 * ValueOf(s[..|s| - 1]) + (s[|s| - 1] as int - '0' as int)
  }

  /** `Decimal` writes the number down: digits only, none of them a leading zero, and
      reading them gives the number back. */
  lemma {:induction false} DecimalReadsBack(n: nat)
    ensures var s := Decimal(n);
      && ValueOf(s) == n
      && s != "" && (n > 0 ==> s[0] != '0')
      && forall i :: 0 <= i < |s| ==> '0' <= s[i] <= '9'
  {
    var s := Decimal(n);
    if n < 10 {
      assert s[..0] == "";
    } else {
      DecimalReadsBack(n / 10);
      assert s[..|s| - 1] == Decimal(n / 10);
    }
  }

  lemma DigitInjective(a: nat, b: nat)
    requires a < 10 && b < 10 && Digit(a) == Digit(b)
    ensures a == b
  {
  }

  /** Different naturals have different decimal numerals. */
  lemma {:induction false} DecimalInjective(a: nat, b: nat)
    requires Decimal(a) == Decimal(b)
    ensures a == b
  {
    var s, t := Decimal(a), Decimal(b);
    assert s[|s| - 1] == Digit(a % 10) && t[|t| - 1] == Digit(b % 10);
    DigitInjective(a % 10, b % 10);
    DecimalNonEmpty(a / 10);
    DecimalNonEmpty(b / 10);
    if a >= 10 && b >= 10 {
      assert Decimal(a / 10) == s[..|s| - 1] == t[..|t| - 1] == Decimal(b / 10);
      DecimalInjective(a / 10, b / 10);
    }
  }

  lemma {:induction false} DecimalNonEmpty(n: nat)
    ensures |Decimal(n)| > 0
  {
  }
}
