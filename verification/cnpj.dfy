/** CNPJ numbers: validation, formatting, the generator used by the API checks, and exactly which single-digit
    errors the two check digits miss. */
module Cnpj {
  import opened CheckDigits

  const W1: seq<int> := [5, 4, 3, 2, 9, 8, 7, 6, 5, 4, 3, 2]
  const W2: seq<int> := [6, 5, 4, 3, 2, 9, 8, 7, 6, 5, 4, 3, 2]

  predicate BothPass(s: string)
    requires |s| == 14
  {
    Passes(s, W1) && Passes(s, W2)
  }

  /** A 14-digit string accepted by the validator. */
  predicate ValidNumber(s: string) { |s| == 14 && AllDigits(s) && !AllSame(s) && BothPass(s) }

  /** The sum for a check digit: from right to left the digits before `position` weigh 2 to 9, and again from 2. */
  function Weighed(s: string, position: nat, n: nat): int
    requires n <= position <= |s|
  {
    if n == 0 then 0 else Weighed(s, position, n - 1) + DigitOf(s[n - 1]) * (2 + (position - n) % 8)
  }

  /** The digit at `position` is the modulo-11 digit of that sum. */
  predicate Checks(s: string, position: nat)
    requires position < |s|
  {
    var remainder := Weighed(s, position, position) % 11;
    DigitOf(s[position]) == if remainder < 2 then 0 else 11 - remainder
  }

  /** The official rule: 14 digits, not all equal, and both check digits right. */
  predicate Official(s: string) { |s| == 14 && AllDigits(s) && !AllSame(s) && Checks(s, 12) && Checks(s, 13) }

  lemma WeightAt(w: seq<int>, i: nat)
    requires (w == W1 || w == W2) && i < |w|
    ensures w[i] == 2 + (|w| - 1 - i) % 8
  {
  }

  lemma {:induction false} WeighedIsSum(s: string, w: seq<int>, n: nat)
    requires (w == W1 || w == W2) && n <= |w| <= |s|
    ensures Weighed(s, |w|, n) == SumFrom(s, w, n)
  {
    if n > 0 {
      WeighedIsSum(s, w, n - 1);
      WeightAt(w, n - 1);
    }
  }

  /** The weights of the validator are the official ones. */
  lemma OfficialExactly(s: string)
    ensures ValidNumber(s) <==> Official(s)
  {
    hide AllDigits, AllSame, SumFrom, Weighed;
    if |s| == 14 {
      WeighedIsSum(s, W1, 12);
      WeighedIsSum(s, W2, 13);
    }
  }

  method ValidateCNPJ(cnpj: string) returns (r: bool)
    ensures r <==> ValidNumber(Normalize(cnpj))
    ensures r <==> Official(Normalize(cnpj))
  {
    var s := Normalize(cnpj);
    NormalizeDigits(cnpj);
    OfficialExactly(s);
    if |s| != 14 { return false; }
    var same := IsAllSameDigit(s);
    if same { return false; }
    var first := ValidateCheckDigit(s, 12, W1);
    if !first { return false; }
    r := ValidateCheckDigit(s, 13, W2);
  }

  lemma ExampleSums(s: string)
    requires |s| == 14 && s[..13] == "1122233300018"
    ensures Sum(s, W1) == 102 && Sum(s, W2) == 120
  {
    assert forall i :: 0 <= i < 13 ==> s[i] == "1122233300018"[i];
    assert SumFrom(s, W1, 1) == 5 && SumFrom(s, W1, 2) == 9 && SumFrom(s, W1, 3) == 15 && SumFrom(s, W1, 4) == 19;
    assert SumFrom(s, W1, 5) == 37 && SumFrom(s, W1, 6) == 61 && SumFrom(s, W1, 7) == 82 && SumFrom(s, W1, 8) == 100;
    assert SumFrom(s, W1, 9) == 100 && SumFrom(s, W1, 10) == 100 && SumFrom(s, W1, 11) == 100 && SumFrom(s, W1, 12) == 102;
    assert SumFrom(s, W2, 1) == 6 && SumFrom(s, W2, 2) == 11 && SumFrom(s, W2, 3) == 19 && SumFrom(s, W2, 4) == 25;
    assert SumFrom(s, W2, 5) == 29 && SumFrom(s, W2, 6) == 56 && SumFrom(s, W2, 7) == 80 && SumFrom(s, W2, 8) == 101;
    assert SumFrom(s, W2, 9) == 101 && SumFrom(s, W2, 10) == 101 && SumFrom(s, W2, 11) == 101 && SumFrom(s, W2, 12) == 104;
    assert SumFrom(s, W2, 13) == 120;
  }

  /** A number that is accepted, and the same with a wrong last digit. */
  lemma AcceptedExample()
    ensures Official("11222333000181") && !Official("11222333000180")
  {
    hide Official, Sum, AllDigits, AllSame;
    var s, t := "11222333000181", "11222333000180";
    ExampleSums(s);
    ExampleSums(t);
    OfficialExactly(s);
    OfficialExactly(t);
    assert AllDigits(s) && !AllSame(s) by { ExampleDigits(); }
  }

  lemma ExampleDigits()
    ensures AllDigits("11222333000181") && !AllSame("11222333000181")
  {
    assert "11222333000181"[0] != "11222333000181"[2];
  }

  function FormatCNPJ(cnpj: string): string {
    var s := Normalize(cnpj);
    if |s| != 14 then cnpj
    else s[..2] + "." + s[2..5] + "." + s[5..8] + "/" + s[8..12] + "-" + s[12..]
  }

  /** Formatting loses nothing: the formatted number normalizes to what the input normalizes to. */
  lemma FormatRoundTrip(cnpj: string)
    ensures Normalize(FormatCNPJ(cnpj)) == Normalize(cnpj)
    ensures FormatCNPJ(FormatCNPJ(cnpj)) == FormatCNPJ(cnpj)
    ensures |Normalize(cnpj)| != 14 ==> FormatCNPJ(cnpj) == cnpj
  {
    hide Normalize;
    NormalizeDigits(cnpj);
    var s := Normalize(cnpj);
    if |s| == 14 {
      NormalizeDigits(s[..2]);
      NormalizeSeparated(s[..2], '.', s[2..5]);
      NormalizeSeparated(s[..2] + "." + s[2..5], '.', s[5..8]);
      NormalizeSeparated(s[..2] + "." + s[2..5] + "." + s[5..8], '/', s[8..12]);
      NormalizeSeparated(s[..2] + "." + s[2..5] + "." + s[5..8] + "/" + s[8..12], '-', s[12..]);
      assert s[..2] + s[2..5] + s[5..8] + s[8..12] + s[12..] == s;
    }
  }

  /** XX.XXX.XXX/XXXX-XX. */
  lemma FormatShape(cnpj: string)
    requires |Normalize(cnpj)| == 14
    ensures var f := FormatCNPJ(cnpj);
            |f| == 18 && f[2] == '.' && f[6] == '.' && f[10] == '/' && f[15] == '-'
  {
    hide Normalize;
  }

  // ---------------------------------------------------------------- single-digit errors

  lemma SumsAfterChange(s: string, i: nat, c: char)
    requires |s| == 14 && i < 14
    ensures Sum(s[i := c], W1) == Sum(s, W1) + (if i < 12 then (DigitOf(c) - DigitOf(s[i])) * W1[i] else 0)
    ensures Sum(s[i := c], W2) == Sum(s, W2) + (if i < 13 then (DigitOf(c) - DigitOf(s[i])) * W2[i] else 0)
  {
    SumFromUpdate(s, W1, 12, i, c);
    SumFromUpdate(s, W2, 13, i, c);
  }

  /** Where both weighted changes are 1 or -1 modulo 11 the two weights add up to 11. */
  lemma OnlyComplementaryWeights(i: nat, delta: int)
    requires i < 12 && -9 <= delta <= 9
    requires (delta * W1[i]) % 11 == 1 || (delta * W1[i]) % 11 == 10
    requires (delta * W2[i]) % 11 == 1 || (delta * W2[i]) % 11 == 10
    ensures i == 0 || i == 4 || i == 8
  {
    if i == 1 {} else if i == 2 {} else if i == 3 {} else if i == 5 {} else if i == 6 {}
    else if i == 7 {} else if i == 9 {} else if i == 10 {} else if i == 11 {}
  }

  /** Changing one digit of a valid CNPJ goes unnoticed exactly when both sums move between remainders 0 and 1,
      which can only happen at positions 0, 4 and 8. */
  lemma SingleErrorExact(s: string, i: nat, c: char)
    requires ValidNumber(s) && i < 14 && IsDigit(c) && c != s[i]
    ensures ValidNumber(s[i := c]) <==>
            && (i == 0 || i == 4 || i == 8)
            && Flips(Sum(s, W1), Sum(s[i := c], W1)) && Flips(Sum(s, W2), Sum(s[i := c], W2))
            && !AllSame(s[i := c])
  {
    hide Sum, Expected, Flips, AllSame;
    var t, delta := s[i := c], DigitOf(c) - DigitOf(s[i]);
    assert AllDigits(t);
    SumsAfterChange(s, i, c);
    if i < 12 {
      assert 2 <= W1[i] <= 10 && 2 <= W2[i] <= 10;
      UnseenExactly(Sum(s, W1), delta, W1[i]);
      UnseenExactly(Sum(s, W2), delta, W2[i]);
      if Flips(Sum(s, W1), Sum(t, W1)) && Flips(Sum(s, W2), Sum(t, W2)) { OnlyComplementaryWeights(i, delta); }
    }
  }

  /** Zeros, but for `x` at position `a` and `y` at position `b`. */
  function Sparse(a: nat, x: char, b: nat, y: char): string {
    seq(14, i => if i == a then x else if i == b then y else '0')
  }

  lemma {:induction false} SparseSumFrom(a: nat, x: char, b: nat, y: char, w: seq<int>, n: nat)
    requires a < b < |w| && n <= |w| <= 14
    ensures SumFrom(Sparse(a, x, b, y), w, n) == (if a < n then DigitOf(x) * w[a] else 0) + (if b < n then DigitOf(y) * w[b] else 0)
  {
    if n > 0 { SparseSumFrom(a, x, b, y, w, n - 1); }
  }

  lemma SparseValid(a: nat, x: char, b: nat, y: char)
    requires a < b < 12 && IsDigit(x) && IsDigit(y) && (x != '0' || y != '0')
    requires (DigitOf(x) * W1[a] + DigitOf(y) * W1[b]) % 11 < 2 && (DigitOf(x) * W2[a] + DigitOf(y) * W2[b]) % 11 < 2
    ensures ValidNumber(Sparse(a, x, b, y))
  {
    var s := Sparse(a, x, b, y);
    SparseSumFrom(a, x, b, y, W1, 12);
    SparseSumFrom(a, x, b, y, W2, 13);
    assert s[a] == x && s[b] == y && s[12] == '0';
  }

  /** Each of the three positions really is blind: a valid number and a valid variant that differs there alone. */
  lemma BlindAt(i: nat) returns (s: string, c: char)
    requires i == 0 || i == 4 || i == 8
    ensures ValidNumber(s) && c != s[i] && ValidNumber(s[i := c])
  {
    hide ValidNumber;
    if i == 0 {
      SparseValid(0, '1', 3, '9');
      SparseValid(0, '3', 3, '9');
      s, c := Sparse(0, '1', 3, '9'), '3';
      assert s[i := c] == Sparse(0, '3', 3, '9');
    } else if i == 4 {
      SparseValid(3, '9', 4, '3');
      SparseValid(3, '9', 4, '9');
      s, c := Sparse(3, '9', 4, '3'), '9';
      assert s[i := c] == Sparse(3, '9', 4, '9');
    } else {
      SparseValid(3, '9', 8, '1');
      SparseValid(3, '9', 8, '3');
      s, c := Sparse(3, '9', 8, '1'), '3';
      assert s[i := c] == Sparse(3, '9', 8, '3');
    }
  }

  // ---------------------------------------------------------------- the two check digits are determined

  function FirstCheck(body: string): int
    requires |body| == 12
  {
    Expected(Sum(body, W1))
  }

  function SecondCheck(body: string): int
    requires |body| == 12
  {
    Expected(Sum(body + [CharOf(FirstCheck(body))], W2))
  }

  /** Every 12-digit body has exactly one pair of check digits that passes both tests. */
  lemma CheckDigitsUnique(body: string, x: char, y: char)
    requires |body| == 12 && AllDigits(body) && IsDigit(x) && IsDigit(y)
    ensures BothPass(body + [x, y]) <==> x == CharOf(FirstCheck(body)) && y == CharOf(SecondCheck(body))
  {
    var s := body + [x, y];
    assert s[..12] == body == body[..12];
    SumFromPrefix(s, body, W1, 12);
    assert DigitOf(x) == FirstCheck(body) <==> x == CharOf(FirstCheck(body));
    if x == CharOf(FirstCheck(body)) {
      assert s[..13] == body + [x] == (body + [x])[..13];
      SumFromPrefix(s, body + [x], W2, 13);
      assert DigitOf(y) == SecondCheck(body) <==> y == CharOf(SecondCheck(body));
    }
  }

  // ---------------------------------------------------------------- the generator

  predicate DigitSeq(numbers: seq<int>) { forall i :: 0 <= i < |numbers| ==> 0 <= numbers[i] <= 9 }

  function Text(numbers: seq<int>): (s: string)
    requires DigitSeq(numbers)
    ensures |s| == |numbers|
    ensures forall i :: 0 <= i < |numbers| ==> s[i] == CharOf(numbers[i])
  {
    if numbers == [] then [] else [CharOf(numbers[0])] + Text(numbers[1..])
  }

  method CalculateCheckDigit(numbers: seq<int>, position: nat) returns (d: int)
    requires (position == 12 || position == 13) && position <= |numbers| && DigitSeq(numbers)
    ensures d == Expected(Sum(Text(numbers), if position == 12 then W1 else W2))
  {
    var weights := if position == 12 then W1 else W2;
    var sum := 0;
    for i := 0 to position
      invariant sum == SumFrom(Text(numbers), weights, i)
    {
      sum := sum + numbers[i] * weights[i];
    }
    var remainder := sum % 11;
    if remainder < 2 { return 0; }
    return 11 - remainder;
  }

  lemma BranchMakesValid(s: string)
    requires |s| == 14 && AllDigits(s) && BothPass(s) && s[8] == CharOf(0) && s[11] == CharOf(1)
    ensures ValidNumber(s)
  {
    hide BothPass;
  }

  /** The eight random digits and the branch number 0001. */
  method GenerateBody(random: seq<nat>) returns (numbers: seq<int>)
    requires |random| == 8
    ensures |numbers| == 12 && DigitSeq(numbers) && numbers[8..] == [0, 0, 0, 1]
    ensures forall i :: 0 <= i < 8 ==> numbers[i] == random[i] % 10
  {
    numbers := [];
    for i := 0 to 8
      invariant |numbers| == i && DigitSeq(numbers)
      invariant forall j :: 0 <= j < i ==> numbers[j] == random[j] % 10
    {
      numbers := numbers + [random[i] % 10];
    }
    numbers := numbers + [0, 0, 0, 1];
  }

  /** generateCNPJ, with the eight random bytes as input: its output is always accepted. */
  method GenerateCNPJ(random: seq<nat>) returns (s: string)
    requires |random| == 8
    ensures ValidNumber(s) && Normalize(s) == s && s[8..12] == "0001"
    ensures forall i :: 0 <= i < 8 ==> s[i] == CharOf(random[i] % 10)
  {
    hide Sum, Expected, ValidNumber;
    var numbers := GenerateBody(random);
    ghost var body, first := Text(numbers), numbers;
    assert numbers[8..][0] == numbers[8] && numbers[8..][1] == numbers[9] && numbers[8..][2] == numbers[10] && numbers[8..][3] == numbers[11];
    var d1 := CalculateCheckDigit(numbers, 12);
    numbers := numbers + [d1];
    assert Text(numbers) == body + [CharOf(d1)];
    var d2 := CalculateCheckDigit(numbers, 13);
    numbers := numbers + [d2];
    s := Text(numbers);
    assert s == body + [CharOf(d1), CharOf(d2)];
    CheckDigitsUnique(body, CharOf(d1), CharOf(d2));
    NormalizeDigits(s);
    BranchMakesValid(s);
  }
}
