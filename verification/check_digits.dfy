/** Modulo-11 check digits, as used by CNPJ and CPF numbers: remainders 0 and 1 share the digit 0. */
module CheckDigits {

  predicate IsDigit(c: char) { '0' <= c <= '9' }

  function DigitOf(c: char): int { c as int - '0' as int }

  function CharOf(d: int): (c: char)
    requires 0 <= d <= 9
    ensures IsDigit(c) && DigitOf(c) == d
  {
    '0' + (d as char)
  }

  predicate AllDigits(s: string) { forall i :: 0 <= i < |s| ==> IsDigit(s[i]) }

  predicate AllSame(s: string) { forall i :: 0 <= i < |s| ==> s[i] == s[0] }

  // ---------------------------------------------------------------- removing punctuation

  /** Removes every character that is not a digit. */
  function StripFrom(s: string): string {
    if s == [] then [] else (if IsDigit(s[0]) then [s[0]] else []) + StripFrom(s[1..])
  }

  function Normalize(s: string): string { StripFrom(s) }

  lemma {:induction false} NormalizeDigits(s: string)
    ensures AllDigits(Normalize(s))
    ensures AllDigits(s) ==> Normalize(s) == s
  {
    if s != [] { NormalizeDigits(s[1..]); }
  }

  lemma {:induction false} NormalizeConcat(s: string, t: string)
    ensures Normalize(s + t) == Normalize(s) + Normalize(t)
  {
    if s == [] {
      assert s + t == t;
    } else {
      NormalizeConcat(s[1..], t);
      assert (s + t)[1..] == s[1..] + t;
    }
  }

  /** A group of digits behind a separator normalizes to the group. */
  lemma NormalizeSeparated(head: string, sep: char, group: string)
    requires !IsDigit(sep) && AllDigits(group)
    ensures Normalize(head + [sep] + group) == Normalize(head) + group
  {
    hide StripFrom;
    NormalizeConcat(head + [sep], group);
    NormalizeConcat(head, [sep]);
    NormalizeDigits(group);
    SeparatorVanishes(sep);
  }

  lemma SeparatorVanishes(sep: char)
    requires !IsDigit(sep)
    ensures Normalize([sep]) == []
  {
    assert StripFrom([sep]) == StripFrom([sep][1..]);
  }

  // ---------------------------------------------------------------- weighted sums

  function SumFrom(s: string, w: seq<int>, n: nat): int
    requires n <= |s| && n <= |w|
  {
    if n == 0 then 0 else SumFrom(s, w, n - 1) + DigitOf(s[n - 1]) * w[n - 1]
  }

  /** The weighted sum of the first |w| digits. */
  function Sum(s: string, w: seq<int>): int
    requires |w| <= |s|
  {
    SumFrom(s, w, |w|)
  }

  /** 0 for remainders 0 and 1, otherwise 11 less the remainder. */
  function Expected(sum: int): (d: int)
    ensures 0 <= d <= 9
  {
    if sum % 11 >= 2 then 11 - sum % 11 else 0
  }

  /** The digit after the weighted ones is the one the sum asks for. */
  predicate Passes(s: string, w: seq<int>)
    requires |w| < |s|
  {
    DigitOf(s[|w|]) == Expected(Sum(s, w))
  }

  lemma {:induction false} SumFromUpdate(s: string, w: seq<int>, n: nat, i: nat, c: char)
    requires n <= |s| && n <= |w| && i < |s|
    ensures SumFrom(s[i := c], w, n) == SumFrom(s, w, n) + (if i < n then (DigitOf(c) - DigitOf(s[i])) * w[i] else 0)
  {
    if n > 0 {
      SumFromUpdate(s, w, n - 1, i, c);
      if i == n - 1 {
        assert DigitOf(c) * w[i] == DigitOf(s[i]) * w[i] + (DigitOf(c) - DigitOf(s[i])) * w[i];
      }
    }
  }

  lemma {:induction false} SumFromPrefix(s: string, t: string, w: seq<int>, n: nat)
    requires n <= |s| && n <= |t| && n <= |w| && s[..n] == t[..n]
    ensures SumFrom(s, w, n) == SumFrom(t, w, n)
  {
    if n > 0 {
      assert s[..n - 1] == s[..n][..n - 1] == t[..n - 1];
      assert s[n - 1] == s[..n][n - 1] == t[n - 1];
      SumFromPrefix(s, t, w, n - 1);
    }
  }

  // ---------------------------------------------------------------- which changes a sum cannot see

  /** The remainder moved between 0 and 1, the two that share a check digit. */
  predicate Flips(a: int, b: int) { (a % 11 == 0 && b % 11 == 1) || (a % 11 == 1 && b % 11 == 0) }

  lemma ExpectedSame(a: int, b: int)
    ensures Expected(a) == Expected(b) <==> a % 11 == b % 11 || Flips(a, b)
  {
  }

  /** A non-zero digit change times a weight from 2 to 10 is never a multiple of 11. */
  lemma ChangeShows(delta: int, w: int)
    requires -9 <= delta <= 9 && delta != 0 && 2 <= w <= 10
    ensures (delta * w) % 11 != 0
  {
    if w == 2 {} else if w == 3 {} else if w == 4 {} else if w == 5 {} else if w == 6 {}
    else if w == 7 {} else if w == 8 {} else if w == 9 {} else {}
  }

  lemma ModShift(a: int, b: int)
    ensures (a + b) % 11 == a % 11 <==> b % 11 == 0
    ensures Flips(a, a + b) ==> b % 11 == 1 || b % 11 == 10
  {
  }

  /** With a weight from 2 to 10 on the changed digit, the expected digit stays the same exactly when the
      remainder flips between 0 and 1; and then the weighted change is 1 or -1 modulo 11. */
  lemma {:induction false} UnseenExactly(sum: int, delta: int, w: int)
    requires -9 <= delta <= 9 && delta != 0 && 2 <= w <= 10
    ensures Expected(sum + delta * w) == Expected(sum) <==> Flips(sum, sum + delta * w)
    ensures Flips(sum, sum + delta * w) ==> (delta * w) % 11 == 1 || (delta * w) % 11 == 10
  {
    ChangeShows(delta, w);
    ModShift(sum, delta * w);
    ExpectedSame(sum + delta * w, sum);
  }

  // ---------------------------------------------------------------- the loops

  /** isAllSameDigit. */
  method IsAllSameDigit(s: string) returns (r: bool)
    ensures r <==> AllSame(s)
  {
    if |s| == 0 { return true; }
    var first := s[0];
    var i := 1;
    while i < |s|
      invariant 1 <= i <= |s| && forall j :: 0 <= j < i ==> s[j] == first
    {
      if s[i] != first { return false; }
      i := i + 1;
    }
    return true;
  }

  /** validateCheckDigit, for the weights that belong to `position`; a character that is not a digit fails. */
  method ValidateCheckDigit(s: string, position: nat, weights: seq<int>) returns (r: bool)
    requires position < |s| && |weights| == position
    ensures r <==> AllDigits(s[..position + 1]) && Passes(s, weights)
  {
    var sum := 0;
    for i := 0 to position
      invariant sum == SumFrom(s, weights, i)
      invariant forall j :: 0 <= j < i ==> IsDigit(s[j])
    {
      if !IsDigit(s[i]) {
        assert s[..position + 1][i] == s[i];
        return false;
      }
      sum := sum + DigitOf(s[i]) * weights[i];
    }
    var remainder := sum % 11;
    var expectedDigit := 0;
    if remainder >= 2 { expectedDigit := 11 - remainder; }
    if !IsDigit(s[position]) {
      assert s[..position + 1][position] == s[position];
      return false;
    }
    return DigitOf(s[position]) == expectedDigit;
  }
}
