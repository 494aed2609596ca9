/** CPF numbers: the value object, its database and JSON round trips, and the single-digit errors it misses. */
module Cpf {
  import opened Common
  import opened CheckDigits

  datatype CpfError = Invalid | Blacklisted | WrongType
  datatype Result<+T> = Ok(value: T) | Err(error: CpfError)

  /** weightStart - i for i < position, with weightStart = position + 1. */
  const W1: seq<int> := [10, 9, 8, 7, 6, 5, 4, 3, 2]
  const W2: seq<int> := [11, 10, 9, 8, 7, 6, 5, 4, 3, 2]

  predicate ValidNumber(s: string) { |s| == 11 && AllDigits(s) && !AllSame(s) && Passes(s, W1) && Passes(s, W2) }

  /** The sum for a check digit: from right to left the digits before `position` weigh 2, 3, 4 and so on. */
  function Weighed(s: string, position: nat, n: nat): int
    requires n <= position <= |s|
  {
    if n == 0 then 0 else Weighed(s, position, n - 1) + DigitOf(s[n - 1]) * (position + 2 - n)
  }

  /** The digit at `position` is the modulo-11 digit of that sum. */
  predicate Checks(s: string, position: nat)
    requires position < |s|
  {
    var remainder := Weighed(s, position, position) % 11;
    DigitOf(s[position]) == if remainder < 2 then 0 else 11 - remainder
  }

  /** The official rule: 11 digits, not all equal, and both check digits right. */
  predicate Official(s: string) { |s| == 11 && AllDigits(s) && !AllSame(s) && Checks(s, 9) && Checks(s, 10) }

  lemma {:induction false} WeighedIsSum(s: string, w: seq<int>, n: nat)
    requires (w == W1 || w == W2) && n <= |w| <= |s|
    ensures Weighed(s, |w|, n) == SumFrom(s, w, n)
  {
    if n > 0 {
      WeighedIsSum(s, w, n - 1);
      assert w[n - 1] == |w| + 2 - n;
    }
  }

  /** The weights of the validator are the official ones. */
  lemma OfficialExactly(s: string)
    ensures ValidNumber(s) <==> Official(s)
  {
    hide AllDigits, AllSame, SumFrom, Weighed;
    if |s| == 11 {
      WeighedIsSum(s, W1, 9);
      WeighedIsSum(s, W2, 10);
    }
  }

  /** The value object; the empty number is its zero value. */
  datatype CPF = CPF(number: string)

  const EMPTY: CPF := CPF("")

  /** A value that the package's own constructors can produce. */
  predicate WellFormed(c: CPF) { c == EMPTY || ValidNumber(c.number) }

  method ValidateCPF(cpf: string) returns (r: Option<CpfError>)
    ensures r.None? <==> ValidNumber(Normalize(cpf))
    ensures r.None? <==> Official(Normalize(cpf))
    ensures r != Some(WrongType)
    ensures r == Some(Blacklisted) <==> |Normalize(cpf)| == 11 && AllSame(Normalize(cpf))
  {
    var s := Normalize(cpf);
    NormalizeDigits(cpf);
    OfficialExactly(s);
    if |s| != 11 { return Some(Invalid); }
    var same := IsAllSameDigit(s);
    if same { return Some(Blacklisted); }
    var first := ValidateCheckDigit(s, 9, W1);
    if !first { return Some(Invalid); }
    var second := ValidateCheckDigit(s, 10, W2);
    if !second { return Some(Invalid); }
    return None;
  }

  function NewCPF(value: string): Result<CPF> {
    var s := Normalize(value);
    if ValidNumber(s) then Ok(CPF(s)) else if |s| == 11 && AllSame(s) then Err(Blacklisted) else Err(Invalid)
  }

  function FormatNumber(s: string): string {
    if |s| != 11 then s else s[..3] + "." + s[3..6] + "." + s[6..9] + "-" + s[9..]
  }

  function FormatCPF(cpf: string): string { FormatNumber(Normalize(cpf)) }

  // ---------------------------------------------------------------- persistence

  /** What the database driver hands to Scan. */
  datatype DbValue = Null | Text(s: string) | Bytes(b: string) | Other

  function Value(c: CPF): DbValue { Text(c.number) }

  function ScanText(s: string): Result<CPF> { if s == "" then Ok(EMPTY) else NewCPF(s) }

  function Scanned(v: DbValue): Result<CPF> {
    match v
    case Null => Ok(EMPTY)
    case Text(s) => ScanText(s)
    case Bytes(b) => ScanText(b)
    case Other => Err(WrongType)
  }

  /** The JSON string a CPF is marshalled to. */
  function Marshalled(c: CPF): string { FormatNumber(c.number) }

  /** A variable of type CPF, as the target of Scan and UnmarshalJSON. */
  class CpfVar {
    var cpf: CPF

    constructor ()
      ensures cpf == EMPTY
    {
      cpf := EMPTY;
    }

    method Scan(v: DbValue) returns (err: Option<CpfError>)
      modifies this
      ensures err.None? <==> Scanned(v).Ok?
      ensures cpf == if err.None? then Scanned(v).value else old(cpf)
      // null and the empty text give the empty CPF, other text its digits when they are a CPF, other types an error
      ensures v == Null || v == Text("") || v == Bytes("") ==> err == None && cpf == EMPTY
      ensures forall t :: t != "" && (v == Text(t) || v == Bytes(t)) ==>
                && (err.None? <==> Official(Normalize(t))) && (err.None? ==> cpf.number == Normalize(t))
      ensures v.Other? <==> err == Some(WrongType)
      ensures old(WellFormed(cpf)) ==> WellFormed(cpf)
    {
      var s: string;
      match v {
        case Null =>
          cpf := EMPTY;
          return None;
        case Text(t) => s := t;
        case Bytes(b) => s := b;
        case Other => return Some(WrongType);
      }
      if s == "" {
        cpf := EMPTY;
        return None;
      }
      var e := ValidateCPF(s);
      if e.Some? { return e; }
      cpf := CPF(Normalize(s));
      return None;
    }

    /** `s` is the decoded JSON string. */
    method UnmarshalJSON(s: string) returns (err: Option<CpfError>)
      modifies this
      ensures err.None? <==> NewCPF(s).Ok?
      ensures cpf == if err.None? then NewCPF(s).value else old(cpf)
      ensures err.None? <==> Official(Normalize(s))
      ensures err.None? ==> cpf.number == Normalize(s)
      ensures old(WellFormed(cpf)) ==> WellFormed(cpf)
    {
      var e := ValidateCPF(s);
      if e.Some? { return e; }
      cpf := CPF(Normalize(s));
      return None;
    }
  }

  lemma FormatNormalizes(s: string)
    requires AllDigits(s)
    ensures Normalize(FormatNumber(s)) == s
  {
    hide Normalize;
    NormalizeDigits(s);
    if |s| == 11 {
      NormalizeDigits(s[..3]);
      NormalizeSeparated(s[..3], '.', s[3..6]);
      NormalizeSeparated(s[..3] + "." + s[3..6], '.', s[6..9]);
      NormalizeSeparated(s[..3] + "." + s[3..6] + "." + s[6..9], '-', s[9..]);
      assert s[..3] + s[3..6] + s[6..9] + s[9..] == s;
    }
  }

  /** XXX.XXX.XXX-XX. */
  lemma FormatShape(cpf: string)
    requires |Normalize(cpf)| == 11
    ensures var f := FormatCPF(cpf);
            |f| == 14 && f[3] == '.' && f[7] == '.' && f[11] == '-'
  {
    hide Normalize;
  }

  /** Normalizing a formatted CPF gives back the normalized input, valid or not. */
  lemma FormatRoundTrip(cpf: string)
    ensures Normalize(FormatCPF(cpf)) == Normalize(cpf)
    ensures |Normalize(cpf)| != 11 ==> FormatCPF(cpf) == Normalize(cpf)
  {
    NormalizeDigits(cpf);
    FormatNormalizes(Normalize(cpf));
  }

  /** Scan undoes Value for every well-formed CPF, the empty one included, as text or as bytes. */
  lemma ScanOfValue(c: CPF)
    requires WellFormed(c)
    ensures Scanned(Value(c)) == Ok(c) && Scanned(Bytes(c.number)) == Ok(c)
  {
    NormalizeDigits(c.number);
  }

  /** Unmarshalling a marshalled CPF gives it back exactly when it is not empty: the empty CPF marshals to the empty
      string, which is refused. */
  lemma JsonRoundTripExactly(c: CPF)
    requires WellFormed(c)
    ensures NewCPF(Marshalled(c)) == Ok(c) <==> c != EMPTY
  {
    if c == EMPTY {
      assert FormatNumber("") == "" && Normalize("") == "";
    } else {
      FormatNormalizes(c.number);
    }
  }

  // ---------------------------------------------------------------- single-digit errors

  lemma SumsAfterChange(s: string, i: nat, c: char)
    requires |s| == 11 && i < 11
    ensures Sum(s[i := c], W1) == Sum(s, W1) + (if i < 9 then (DigitOf(c) - DigitOf(s[i])) * W1[i] else 0)
    ensures Sum(s[i := c], W2) == Sum(s, W2) + (if i < 10 then (DigitOf(c) - DigitOf(s[i])) * W2[i] else 0)
  {
    SumFromUpdate(s, W1, 9, i, c);
    SumFromUpdate(s, W2, 10, i, c);
  }

  lemma OnlyComplementaryWeights(i: nat, delta: int)
    requires 1 <= i < 9 && -9 <= delta <= 9
    requires (delta * W1[i]) % 11 == 1 || (delta * W1[i]) % 11 == 10
    requires (delta * W2[i]) % 11 == 1 || (delta * W2[i]) % 11 == 10
    ensures i == 5
  {
    if i == 1 {} else if i == 2 {} else if i == 3 {} else if i == 4 {} else if i == 6 {} else if i == 7 {} else if i == 8 {}
  }

  /** The second test weighs the first digit with 11 and so never sees it. */
  lemma FirstDigitUnweighted(sum: int, delta: int)
    ensures Expected(sum + delta * 11) == Expected(sum)
  {
    assert (sum + delta * 11) % 11 == sum % 11;
  }

  /** Changing one digit of a valid CPF goes unnoticed exactly at position 0 when the first sum moves between
      remainders 0 and 1, or at position 5 when both sums do. */
  lemma SingleErrorExact(s: string, i: nat, c: char)
    requires ValidNumber(s) && i < 11 && IsDigit(c) && c != s[i]
    ensures ValidNumber(s[i := c]) <==>
            && Flips(Sum(s, W1), Sum(s[i := c], W1))
            && (i == 0 || (i == 5 && Flips(Sum(s, W2), Sum(s[i := c], W2))))
            && !AllSame(s[i := c])
  {
    hide Sum, Expected, Flips, AllSame;
    var t, delta := s[i := c], DigitOf(c) - DigitOf(s[i]);
    assert AllDigits(t);
    SumsAfterChange(s, i, c);
    if i < 9 {
      assert 2 <= W1[i] <= 10;
      UnseenExactly(Sum(s, W1), delta, W1[i]);
      if i == 0 {
        FirstDigitUnweighted(Sum(s, W2), delta);
      } else {
        assert 2 <= W2[i] <= 10;
        UnseenExactly(Sum(s, W2), delta, W2[i]);
        if Flips(Sum(s, W1), Sum(t, W1)) && Flips(Sum(s, W2), Sum(t, W2)) { OnlyComplementaryWeights(i, delta); }
      }
    } else {
      NotFlipped(Sum(s, W1));
    }
  }

  lemma NotFlipped(sum: int)
    ensures !Flips(sum, sum)
  {
  }

  lemma FirstExample()
    ensures ValidNumber("70100000002") && Sum("70100000002", W1) == 78
  {
    assert "70100000002"[0] != "70100000002"[1];
  }

  lemma SecondExample()
    ensures ValidNumber("01800100000") && Sum("01800100000", W1) == 78 && Sum("01800100000", W2) == 88
  {
    assert "01800100000"[0] != "01800100000"[1];
  }

  lemma ExampleSums(s: string)
    requires s == "52998224725"
    ensures Sum(s, W1) == 295 && Sum(s, W2) == 347
  {
    assert SumFrom(s, W1, 1) == 50 && SumFrom(s, W1, 2) == 68 && SumFrom(s, W1, 3) == 140 && SumFrom(s, W1, 4) == 203;
    assert SumFrom(s, W1, 5) == 251 && SumFrom(s, W1, 6) == 261 && SumFrom(s, W1, 7) == 269 && SumFrom(s, W1, 8) == 281;
    assert SumFrom(s, W1, 9) == 295;
    assert SumFrom(s, W2, 1) == 55 && SumFrom(s, W2, 2) == 75 && SumFrom(s, W2, 3) == 156 && SumFrom(s, W2, 4) == 228;
    assert SumFrom(s, W2, 5) == 284 && SumFrom(s, W2, 6) == 296 && SumFrom(s, W2, 7) == 306 && SumFrom(s, W2, 8) == 322;
    assert SumFrom(s, W2, 9) == 343 && SumFrom(s, W2, 10) == 347;
  }

  /** A number that is accepted. */
  lemma AcceptedExample()
    ensures Official("52998224725")
  {
    hide Official, Sum, AllDigits, AllSame;
    var s := "52998224725";
    ExampleSums(s);
    OfficialExactly(s);
    assert AllDigits(s) && !AllSame(s) by { ExampleDigits(); }
  }

  lemma ExampleDigits()
    ensures AllDigits("52998224725") && !AllSame("52998224725")
  {
    assert "52998224725"[0] != "52998224725"[1];
  }

  /** Both positions really are blind. */
  lemma BlindAt(i: nat) returns (s: string, c: char)
    requires i == 0 || i == 5
    ensures ValidNumber(s) && c != s[i] && ValidNumber(s[i := c])
  {
    hide Sum, ValidNumber, Passes;
    FirstExample();
    SecondExample();
    if i == 0 { s, c := "70100000002", '8'; } else { s, c := "01800100000", '3'; }
    SumsAfterChange(s, i, c);
    SingleErrorExact(s, i, c);
    assert s[i := c][1] == s[1] && s[i := c][2] == s[2];
  }
}
