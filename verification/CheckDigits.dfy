/**
 Brazilian taxpayer numbers: the CPF and CNPJ check digits of the account service, and the second
 CNPJ validator of the tenant service. Input is ASCII; both services keep what they were given
 outside of it.
 */
module CheckDigits {
  import opened Options

  type Digits = seq<nat>

  const CNPJ_FIRST: seq<nat> := [5, 4, 3, 2, 9, 8, 7, 6, 5, 4, 3, 2]
  const CNPJ_SECOND: seq<nat> := [6, 5, 4, 3, 2, 9, 8, 7, 6, 5, 4, 3, 2]

  // ----- Normalisation -----

  predicate IsDigit(c: char) {
    '0' <= c <= '9'
  }

  predicate IsLetter(c: char) {
    'a' <= c <= 'z' || 'A' <= c <= 'Z'
  }

  predicate IsAscii(s: string) {
    forall c | c in s :: c < 128 as char
  }

  predicate HasLetter(s: string) {
    exists c :: c in s && IsLetter(c)
  }

  function Upper(c: char): char {
    if 'a' <= c <= 'z' then c - 'a' + 'A' else c
  }

  /** Upper case, then keep letters and digits; surrounding blanks are neither. */
  function NormalizeIdentifier(value: string): string {
    if value == "" then ""
    else
      var c := Upper(value[0]);
      (if IsDigit(c) || IsLetter(c) then [c] else []) + NormalizeIdentifier(value[1..])
  }

  function KeepDigits(value: string): string {
    if value == "" then ""
    else (if IsDigit(value[0]) then [value[0]] else []) + KeepDigits(value[1..])
  }

  predicate AllDigits(s: string) {
    forall c | c in s :: IsDigit(c)
  }

  function DigitValue(c: char): nat
    requires IsDigit(c)
  {
    c as int - '0' as int
  }

  function DigitsOf(s: string): Digits
    requires AllDigits(s)
  {
    seq(|s|, i requires 0 <= i < |s| => DigitValue(s[i]))
  }

  predicate AllSame(d: Digits) {
    forall i | 0 <= i < |d| :: d[i] == d[0]
  }

  // ----- Check digits -----

  function WeightedSum(d: Digits, weights: seq<nat>): nat
    requires |d| == |weights|
  {
    if d == [] then 0 else d[0] * weights[0] + WeightedSum(d[1..], weights[1..])
  }

  function CpfWeights(size: nat): seq<nat> {
    seq(size, i requires 0 <= i < size => size + 1 - i)
  }

  function CpfSum(d: Digits, size: nat): nat
    requires size <= |d|
  {
    WeightedSum(d[..size], CpfWeights(size))
  }

  function CpfCheckDigit(total: nat): nat {
    (total * 10 % 11) % 10
  }

  predicate ValidCpf(d: Digits) {
    && |d| == 11
    && !AllSame(d)
    && CpfCheckDigit(CpfSum(d, 9)) == d[9]
    && CpfCheckDigit(CpfSum(d, 10)) == d[10]
  }

  function CnpjSum(d: Digits, weights: seq<nat>): nat
    requires |weights| <= |d|
  {
    WeightedSum(d[..|weights|], weights)
  }

  function CnpjCheckDigit(total: nat): nat {
    var remainder := total % 11;
    if remainder < 2 then 0 else 11 - remainder
  }

  predicate ValidCnpj(d: Digits) {
    && |d| == 14
    && !AllSame(d)
    && CnpjCheckDigit(CnpjSum(d, CNPJ_FIRST)) == d[12]
    && CnpjCheckDigit(CnpjSum(d, CNPJ_SECOND)) == d[13]
  }

  /** The CPF branch of the account service; `None` stands for the raised error. */
  function ValidateCpf(value: string): Option<string> {
    var normalized := NormalizeIdentifier(value);
    if |normalized| != 11 || !AllDigits(normalized) || !ValidCpf(DigitsOf(normalized)) then None
    else Some(normalized)
  }

  /** The CNPJ branch of the account service. */
  function ValidateCnpj(value: string): Option<string> {
    var normalized := NormalizeIdentifier(value);
    if |normalized| != 14 || !AllDigits(normalized) || !ValidCnpj(DigitsOf(normalized)) then None
    else Some(normalized)
  }

  lemma {:induction false} KeptAreDigits(value: string)
    ensures AllDigits(KeepDigits(value))
  {
    if value != "" {
      KeptAreDigits(value[1..]);
    }
  }

  /** The tenant service's own CNPJ check: everything that is not a digit is dropped first. */
  function NormalizeCnpj(value: string): Option<string> {
    KeptAreDigits(value);
    var normalized := KeepDigits(value);
    if |normalized| != 14 || !ValidCnpj(DigitsOf(normalized)) then None
    else Some(normalized)
  }

  // ----- Error detection -----

  /** Changing one digit moves a weighted sum by the weight times the change; any length. */
  lemma {:induction false} WeightedSumChange(d: Digits, weights: seq<nat>, i: nat, x: nat)
    requires |d| == |weights| && i < |d|
    ensures WeightedSum(d[i := x], weights) == WeightedSum(d, weights) + weights[i] * (x - d[i])
  {
    if i == 0 {
      assert d[i := x][1..] == d[1..];
    } else {
      assert d[i := x][1..] == d[1..][i - 1 := x];
      WeightedSumChange(d[1..], weights[1..], i - 1, x);
    }
  }

  ghost predicate IsDecimal(d: Digits) {
    forall i | 0 <= i < |d| :: d[i] <= 9
  }

  /** 11 is prime: a weight that is not a multiple of it never hides a change of one digit. */
  lemma ChangeSurvives(w: nat, delta: int)
    requires w % 11 != 0 && delta != 0 && -9 <= delta <= 9
    ensures (w * delta) % 11 != 0
  {
    var r, q := w % 11, w / 11;
    assert w * delta == r * delta + 11 * (q * delta);
    assert (r * delta) % 11 != 0 by {
      if r == 1 || r == 2 || r == 3 {
      } else if r == 4 || r == 5 || r == 6 {
      } else if r == 7 || r == 8 {
      } else {
        assert r == 9 || r == 10;
      }
    }
    RemainderIgnoresMultiples(r * delta, q * delta);
  }

  lemma RemainderIgnoresMultiples(a: int, k: int)
    ensures (a + 11 * k) % 11 == a % 11
  {
  }

  lemma RemainderOfSum(a: int, b: int)
    ensures var r := a % 11 + b % 11; (a + b) % 11 == if r >= 11 then r - 11 else r
  {
  }

  /** The remainder modulo 11 of a weighted sum of any length detects every single substitution. */
  lemma SubstitutionMovesRemainder(d: Digits, weights: seq<nat>, i: nat, x: nat)
    requires |d| == |weights| && i < |d| && IsDecimal(d)
    requires x <= 9 && x != d[i] && weights[i] % 11 != 0
    ensures WeightedSum(d[i := x], weights) % 11 != WeightedSum(d, weights) % 11
  {
    var shift := weights[i] * (x - d[i]);
    WeightedSumChange(d, weights, i, x);
    ChangeSurvives(weights[i], x - d[i]);
    RemainderOfSum(WeightedSum(d, weights), shift);
  }

  lemma ShiftHidden(s: nat, shift: int)
    requires s + shift >= 0
    ensures CnpjCheckDigit(s + shift) == CnpjCheckDigit(s) <==>
            || shift % 11 == 0
            || (s % 11 == 0 && shift % 11 == 1)
            || (s % 11 == 1 && shift % 11 == 10)
  {
    RemainderOfSum(s, shift);
  }

  lemma CpfDigitIsCnpjDigit(total: nat)
    ensures CpfCheckDigit(total) == CnpjCheckDigit(total)
  {
    var r, q := total % 11, total / 11;
    assert total * 10 == r * 10 + 11 * (q * 10);
    RemainderIgnoresMultiples(r * 10, q * 10);
  }

  // ----- What is accepted -----

  /** Total and digit add up to a multiple of 11; a remainder of 10, which no digit balances, calls for a 0. */
  predicate Balances(total: nat, digit: nat) {
    (total + digit) % 11 == 0 || (digit == 0 && total % 11 == 1)
  }

  lemma CheckDigitBalances(total: nat, digit: nat)
    requires digit <= 9
    ensures CpfCheckDigit(total) == digit <==> Balances(total, digit)
    ensures CnpjCheckDigit(total) == digit <==> Balances(total, digit)
  {
    CpfDigitIsCnpjDigit(total);
    var quotient, remainder := total / 11, total % 11;
    assert total + digit == 11 * quotient + (remainder + digit);
    RemainderIgnoresMultiples(remainder + digit, quotient);
  }

  lemma DigitsOfText(text: string)
    requires AllDigits(text)
    ensures AllSame(DigitsOf(text)) <==> forall i | 0 <= i < |text| :: text[i] == text[0]
    ensures forall i | 0 <= i < |text| :: DigitsOf(text)[i] <= 9
  {
    forall i | 0 <= i < |text| ensures DigitsOf(text)[i] <= 9 && text[i] as int == DigitsOf(text)[i] + '0' as int {
      assert text[i] in text;
    }
  }

  /** Exactly the texts with eleven digits, not all the same, whose two last digits balance the weighted sums. */
  lemma AcceptedCpf(value: string, text: string)
    ensures ValidateCpf(value) == Some(text) <==>
            && text == NormalizeIdentifier(value) && |text| == 11 && AllDigits(text)
            && (exists i :: 0 <= i < |text| && text[i] != text[0])
            && var d := DigitsOf(text); Balances(CpfSum(d, 9), d[9]) && Balances(CpfSum(d, 10), d[10])
  {
    hide CpfSum, CpfCheckDigit, Balances, AllSame;
    if text == NormalizeIdentifier(value) && |text| == 11 && AllDigits(text) {
      var d := DigitsOf(text);
      DigitsOfText(text);
      CheckDigitBalances(CpfSum(d, 9), d[9]);
      CheckDigitBalances(CpfSum(d, 10), d[10]);
    }
  }

  lemma AcceptedCnpj(value: string, text: string)
    ensures ValidateCnpj(value) == Some(text) <==>
            && text == NormalizeIdentifier(value) && |text| == 14 && AllDigits(text)
            && (exists i :: 0 <= i < |text| && text[i] != text[0])
            && var d := DigitsOf(text);
               Balances(CnpjSum(d, CNPJ_FIRST), d[12]) && Balances(CnpjSum(d, CNPJ_SECOND), d[13])
  {
    hide CnpjSum, CnpjCheckDigit, Balances, AllSame;
    if text == NormalizeIdentifier(value) && |text| == 14 && AllDigits(text) {
      var d := DigitsOf(text);
      DigitsOfText(text);
      CheckDigitBalances(CnpjSum(d, CNPJ_FIRST), d[12]);
      CheckDigitBalances(CnpjSum(d, CNPJ_SECOND), d[13]);
    }
  }

  // ----- Where a substitution hides -----

  /** The inverse of 1 to 9 modulo 11. */
  function Inverse(delta: nat): nat
    requires 1 <= delta <= 9
  {
    [1, 6, 4, 3, 9, 2, 8, 7, 5][delta - 1]
  }

  lemma OnlyInverses(u: nat, delta: nat)
    requires 1 <= u <= 10 && 1 <= delta <= 9
    ensures (u * delta) % 11 in {1, 10} ==> u == Inverse(delta) || u == 11 - Inverse(delta)
  {
    if delta <= 3 {
      if delta == 1 {} else if delta == 2 {} else {}
    } else if delta <= 6 {
      if delta == 4 {} else if delta == 5 {} else {}
    } else {
      if delta == 7 {} else if delta == 8 {} else {}
    }
  }

  lemma NegatedRemainder(a: int)
    ensures (-a) % 11 == if a % 11 == 0 then 0 else 11 - a % 11
  {
  }

  /** Two weights can send one change to 1 and 10 (in either order) only if they are equal or opposite. */
  lemma ShiftsApart(u: nat, v: nat, delta: int)
    requires 1 <= u <= 10 && 1 <= v <= 10 && u != v
    requires delta != 0 && -9 <= delta <= 9
    ensures var a, b := (u * delta) % 11, (v * delta) % 11;
            && a != 0 && b != 0
            && (u + v == 11 ==> a + b == 11)
            && (u + v != 11 ==> !(a in {1, 10} && b in {1, 10}))
  {
    ChangeSurvives(u, delta);
    ChangeSurvives(v, delta);
    if u + v == 11 {
      OppositeWeights(u, v, delta);
    } else {
      OnlyInversesSigned(u, delta);
      OnlyInversesSigned(v, delta);
    }
  }

  lemma OppositeWeights(u: nat, v: nat, delta: int)
    requires u + v == 11 && (u * delta) % 11 != 0
    ensures (u * delta) % 11 + (v * delta) % 11 == 11
  {
    assert v * delta == -(u * delta) + 11 * delta;
    NegatedRemainder(u * delta);
    RemainderIgnoresMultiples(-(u * delta), delta);
  }

  lemma OnlyInversesSigned(u: nat, delta: int)
    requires 1 <= u <= 10 && delta != 0 && -9 <= delta <= 9
    ensures var inverse := Inverse(if delta > 0 then delta else -delta);
            (u * delta) % 11 in {1, 10} ==> u == inverse || u == 11 - inverse
  {
    if delta > 0 {
      OnlyInverses(u, delta);
    } else {
      assert u * -delta == -(u * delta);
      NegatedRemainder(u * delta);
      OnlyInverses(u, -delta);
    }
  }

  /** Only at positions 0, 4 and 8 are the two CNPJ weights opposite modulo 11; nowhere are they equal. */
  lemma CnpjWeights(i: nat)
    requires i < 12
    ensures 1 <= CNPJ_FIRST[i] <= 10 && 1 <= CNPJ_SECOND[i] <= 10 && CNPJ_FIRST[i] != CNPJ_SECOND[i]
    ensures CNPJ_FIRST[i] + CNPJ_SECOND[i] == 11 <==> i in {0, 4, 8}
  {
  }

  lemma CnpjShifts(i: nat, delta: int)
    requires i < 12 && delta != 0 && -9 <= delta <= 9
    ensures var a, b := (CNPJ_FIRST[i] * delta) % 11, (CNPJ_SECOND[i] * delta) % 11;
            && a != 0 && b != 0
            && (i in {0, 4, 8} ==> a + b == 11)
            && (i !in {0, 4, 8} ==> !(a in {1, 10} && b in {1, 10}))
  {
    var u, v := CNPJ_FIRST[i], CNPJ_SECOND[i];
    CnpjWeights(i);
    ShiftsApart(u, v, delta);
  }

  /** The remainder behind a check digit. */
  function CnpjRemainder(d: Digits, weights: seq<nat>): nat
    requires |weights| <= |d|
  {
    CnpjSum(d, weights) % 11
  }

  /**
   When a changed digit of a CNPJ goes unnoticed: both check digits are 0, one of the two
   remainders is 0 and the other 1, the digit is at position 0, 4 or 8, and the change moves the
   first remainder to the other one of 0 and 1.
   */
  predicate CnpjBlindSpot(d: Digits, i: nat, x: nat)
    requires |d| == 14 && i < 14
  {
    && i in {0, 4, 8}
    && d[12] == 0 && d[13] == 0
    && CnpjRemainder(d, CNPJ_FIRST) + CnpjRemainder(d, CNPJ_SECOND) == 1
    && (CNPJ_FIRST[i] * (x - d[i])) % 11 == (if CnpjRemainder(d, CNPJ_FIRST) == 0 then 1 else 10)
  }

  lemma CnpjSumChange(d: Digits, weights: seq<nat>, i: nat, x: nat)
    requires |weights| <= |d| && i < |d|
    ensures CnpjSum(d[i := x], weights) == CnpjSum(d, weights) + if i < |weights| then weights[i] * (x - d[i]) else 0
  {
    if i < |weights| {
      assert d[i := x][..|weights|] == d[..|weights|][i := x];
      WeightedSumChange(d[..|weights|], weights, i, x);
    } else {
      assert d[i := x][..|weights|] == d[..|weights|];
    }
  }

  lemma {:induction false} ZeroSum(d: Digits, weights: seq<nat>)
    requires |d| == |weights| && forall i | 0 <= i < |d| :: d[i] == 0
    ensures WeightedSum(d, weights) == 0
  {
    if d != [] {
      ZeroSum(d[1..], weights[1..]);
    }
  }

  /** All digits of the changed number would have to be 0, and so both sums. */
  lemma BlindCnpjNotAllSame(d: Digits, i: nat, x: nat)
    requires |d| == 14 && i < 12 && IsDecimal(d) && x <= 9 && x != d[i] && CnpjBlindSpot(d, i, x)
    ensures !AllSame(d[i := x])
  {
    var e := d[i := x];
    CnpjSumChange(d, CNPJ_FIRST, i, x);
    CnpjSumChange(d, CNPJ_SECOND, i, x);
    CnpjShifts(i, x - d[i]);
    RemainderOfSum(CnpjSum(d, CNPJ_FIRST), CNPJ_FIRST[i] * (x - d[i]));
    RemainderOfSum(CnpjSum(d, CNPJ_SECOND), CNPJ_SECOND[i] * (x - d[i]));
    if forall k | 0 <= k < 14 :: e[k] == 0 {
      ZeroSum(e[..12], CNPJ_FIRST);
      ZeroSum(e[..13], CNPJ_SECOND);
    }
    assert e[13] == 0;
  }

  /** Exactly which single-digit substitutions a valid CNPJ survives. */
  lemma CnpjSubstitution(d: Digits, i: nat, x: nat)
    requires ValidCnpj(d) && IsDecimal(d)
    requires i < 14 && x <= 9 && x != d[i]
    ensures ValidCnpj(d[i := x]) <==> CnpjBlindSpot(d, i, x)
  {
    hide WeightedSum, CnpjSum;
    CnpjSumChange(d, CNPJ_FIRST, i, x);
    CnpjSumChange(d, CNPJ_SECOND, i, x);
    if i < 12 {
      var delta := x - d[i];
      ShiftHidden(CnpjSum(d, CNPJ_FIRST), CNPJ_FIRST[i] * delta);
      ShiftHidden(CnpjSum(d, CNPJ_SECOND), CNPJ_SECOND[i] * delta);
      CnpjShifts(i, delta);
      if CnpjBlindSpot(d, i, x) {
        BlindCnpjNotAllSame(d, i, x);
      }
    }
  }

  /** Every single-digit substitution in a CNPJ whose check digits are not both 0 is rejected. */
  lemma CnpjDetectsSubstitution(d: Digits, i: nat, x: nat)
    requires ValidCnpj(d) && IsDecimal(d) && !(d[12] == 0 && d[13] == 0)
    requires i < 14 && x <= 9 && x != d[i]
    ensures !ValidCnpj(d[i := x])
  {
    CnpjSubstitution(d, i, x);
  }

  /** Blind at position 0, and at positions 4 and 8. */
  const BLIND_CNPJ: Digits := [6, 8, 3, 8, 7, 3, 8, 0, 0, 0, 0, 1, 0, 0]
  const BLIND_CNPJ_LATER: Digits := [7, 5, 5, 7, 7, 0, 9, 6, 7, 1, 6, 8, 0, 0]

  lemma CnpjSums(d: Digits)
    requires |d| == 14
    ensures CnpjSum(d, CNPJ_FIRST) ==
            d[0] * 5 + d[1] * 4 + d[2] * 3 + d[3] * 2 + d[4] * 9 + d[5] * 8
            + d[6] * 7 + d[7] * 6 + d[8] * 5 + d[9] * 4 + d[10] * 3 + d[11] * 2
    ensures CnpjSum(d, CNPJ_SECOND) ==
            d[0] * 6 + d[1] * 5 + d[2] * 4 + d[3] * 3 + d[4] * 2 + d[5] * 9 + d[6] * 8
            + d[7] * 7 + d[8] * 6 + d[9] * 5 + d[10] * 4 + d[11] * 3 + d[12] * 2
  {
    SumOfTwelve(d[..12], CNPJ_FIRST);
    assert d[..13][1..] == d[1..13];
    SumOfTwelve(d[1..13], CNPJ_SECOND[1..]);
  }

  lemma BlindCnpjs()
    ensures ValidCnpj(BLIND_CNPJ) && CnpjSum(BLIND_CNPJ, CNPJ_FIRST) == 232 && CnpjSum(BLIND_CNPJ, CNPJ_SECOND) == 220
    ensures ValidCnpj(BLIND_CNPJ_LATER)
    ensures CnpjSum(BLIND_CNPJ_LATER, CNPJ_FIRST) == 319 && CnpjSum(BLIND_CNPJ_LATER, CNPJ_SECOND) == 331
  {
    hide WeightedSum, CnpjSum;
    CnpjSums(BLIND_CNPJ);
    CnpjSums(BLIND_CNPJ_LATER);
    assert BLIND_CNPJ[1] != BLIND_CNPJ[0] && BLIND_CNPJ_LATER[1] != BLIND_CNPJ_LATER[0];
  }

  /** Every blind position is inhabited: valid CNPJs one digit apart at 0, at 4 and at 8. */
  lemma CnpjBlindSpotExists()
    ensures ValidCnpj(BLIND_CNPJ) && ValidCnpj(BLIND_CNPJ[0 := 8])
    ensures ValidCnpj(BLIND_CNPJ_LATER) && ValidCnpj(BLIND_CNPJ_LATER[4 := 1]) && ValidCnpj(BLIND_CNPJ_LATER[8 := 5])
  {
    hide WeightedSum, CnpjSum, ValidCnpj;
    BlindCnpjs();
    CnpjSubstitution(BLIND_CNPJ, 0, 8);
    CnpjSubstitution(BLIND_CNPJ_LATER, 4, 1);
    CnpjSubstitution(BLIND_CNPJ_LATER, 8, 5);
  }

  lemma SumOfTwelve(d: Digits, w: seq<nat>)
    requires |d| == 12 && |w| == 12
    ensures WeightedSum(d, w) ==
            d[0] * w[0] + d[1] * w[1] + d[2] * w[2] + d[3] * w[3] + d[4] * w[4] + d[5] * w[5]
            + d[6] * w[6] + d[7] * w[7] + d[8] * w[8] + d[9] * w[9] + d[10] * w[10] + d[11] * w[11]
  {
    SumOfSix(d, w);
    SumOfSix(d[6..], w[6..]);
  }

  lemma SumOfSix(d: Digits, w: seq<nat>)
    requires |d| == |w| && |d| >= 6
    ensures WeightedSum(d, w) ==
            d[0] * w[0] + d[1] * w[1] + d[2] * w[2] + d[3] * w[3] + d[4] * w[4] + d[5] * w[5]
            + WeightedSum(d[6..], w[6..])
  {
    assert d[1..][1..] == d[2..] && d[2..][1..] == d[3..] && d[3..][1..] == d[4..];
    assert d[4..][1..] == d[5..] && d[5..][1..] == d[6..];
    assert w[1..][1..] == w[2..] && w[2..][1..] == w[3..] && w[3..][1..] == w[4..];
    assert w[4..][1..] == w[5..] && w[5..][1..] == w[6..];
    assert WeightedSum(d[1..], w[1..]) == d[1] * w[1] + WeightedSum(d[2..], w[2..]);
    assert WeightedSum(d[2..], w[2..]) == d[2] * w[2] + WeightedSum(d[3..], w[3..]);
    assert WeightedSum(d[3..], w[3..]) == d[3] * w[3] + WeightedSum(d[4..], w[4..]);
    assert WeightedSum(d[4..], w[4..]) == d[4] * w[4] + WeightedSum(d[5..], w[5..]);
    assert WeightedSum(d[5..], w[5..]) == d[5] * w[5] + WeightedSum(d[6..], w[6..]);
  }

  lemma CpfSumChange(d: Digits, size: nat, i: nat, x: nat)
    requires size <= |d| && i < |d|
    ensures CpfSum(d[i := x], size) == CpfSum(d, size) + if i < size then (size + 1 - i) * (x - d[i]) else 0
  {
    if i < size {
      assert d[i := x][..size] == d[..size][i := x];
      WeightedSumChange(d[..size], CpfWeights(size), i, x);
    } else {
      assert d[i := x][..size] == d[..size];
    }
  }

  /** The first digit has weight 11 in the second CPF sum; only position 5 has opposite weights. */
  lemma CpfShifts(i: nat, delta: int)
    requires i < 9 && delta != 0 && -9 <= delta <= 9
    ensures var a, b := ((10 - i) * delta) % 11, ((11 - i) * delta) % 11;
            && a != 0
            && (i == 0 <==> b == 0)
            && (i == 5 ==> a + b == 11)
            && (i !in {0, 5} ==> !(a in {1, 10} && b in {1, 10}))
  {
    if i == 0 {
      ChangeSurvives(10, delta);
      RemainderIgnoresMultiples(0, delta);
    } else {
      ShiftsApart(10 - i, 11 - i, delta);
    }
  }

  /**
   When a changed digit of a CPF goes unnoticed: the first check digit is 0 and the change moves the
   first remainder to the other one of 0 and 1, at position 0 (which the second check does not
   see), or at position 5 with the second check digit 0 as well and the two remainders different.
   */
  predicate CpfBlindSpot(d: Digits, i: nat, x: nat)
    requires |d| == 11 && i < 11
  {
    var r1, r2 := CpfSum(d, 9) % 11, CpfSum(d, 10) % 11;
    && d[9] == 0
    && (i == 0 || (i == 5 && d[10] == 0 && r1 + r2 == 1))
    && ((10 - i) * (x - d[i])) % 11 == (if r1 == 0 then 1 else 10)
  }

  lemma BlindCpfNotAllSame(d: Digits, i: nat, x: nat)
    requires |d| == 11 && i < 9 && IsDecimal(d) && x <= 9 && x != d[i] && CpfBlindSpot(d, i, x)
    requires d[10] == CpfCheckDigit(CpfSum(d, 10))
    ensures !AllSame(d[i := x])
  {
    var e := d[i := x];
    CpfSumChange(d, 9, i, x);
    CpfSumChange(d, 10, i, x);
    CpfShifts(i, x - d[i]);
    RemainderOfSum(CpfSum(d, 9), (10 - i) * (x - d[i]));
    RemainderOfSum(CpfSum(d, 10), (11 - i) * (x - d[i]));
    if forall k | 0 <= k < 11 :: e[k] == 0 {
      ZeroSum(e[..9], CpfWeights(9));
      ZeroSum(e[..10], CpfWeights(10));
    }
    assert e[9] == 0;
  }

  /** Exactly which single-digit substitutions a valid CPF survives. */
  lemma CpfSubstitution(d: Digits, i: nat, x: nat)
    requires ValidCpf(d) && IsDecimal(d)
    requires i < 11 && x <= 9 && x != d[i]
    ensures ValidCpf(d[i := x]) <==> CpfBlindSpot(d, i, x)
  {
    hide WeightedSum, CpfSum;
    var e := d[i := x];
    var s1, s2 := CpfSum(d, 9), CpfSum(d, 10);
    CpfSumChange(d, 9, i, x);
    CpfSumChange(d, 10, i, x);
    CpfDigitIsCnpjDigit(s1);
    CpfDigitIsCnpjDigit(s2);
    CpfDigitIsCnpjDigit(CpfSum(e, 9));
    CpfDigitIsCnpjDigit(CpfSum(e, 10));
    if i < 9 {
      var delta := x - d[i];
      ShiftHidden(s1, (10 - i) * delta);
      ShiftHidden(s2, (11 - i) * delta);
      CpfShifts(i, delta);
      if CpfBlindSpot(d, i, x) {
        BlindCpfNotAllSame(d, i, x);
      }
    }
  }

  /** Blind at position 0, and at position 5. */
  const BLIND_CPF: Digits := [1, 2, 7, 0, 1, 7, 7, 7, 1, 0, 0]
  const BLIND_CPF_LATER: Digits := [2, 5, 6, 6, 7, 6, 7, 2, 2, 0, 0]

  lemma SumOfThree(d: Digits, w: seq<nat>)
    requires |d| == |w| && |d| >= 3
    ensures WeightedSum(d, w) == d[0] * w[0] + d[1] * w[1] + d[2] * w[2] + WeightedSum(d[3..], w[3..])
  {
    assert d[1..][1..] == d[2..] && d[2..][1..] == d[3..] && w[1..][1..] == w[2..] && w[2..][1..] == w[3..];
    assert WeightedSum(d[1..], w[1..]) == d[1] * w[1] + WeightedSum(d[2..], w[2..]);
    assert WeightedSum(d[2..], w[2..]) == d[2] * w[2] + WeightedSum(d[3..], w[3..]);
  }

  lemma SumOfNine(d: Digits, w: seq<nat>)
    requires |d| == |w| && |d| >= 9
    ensures WeightedSum(d, w) ==
            d[0] * w[0] + d[1] * w[1] + d[2] * w[2] + d[3] * w[3] + d[4] * w[4] + d[5] * w[5]
            + d[6] * w[6] + d[7] * w[7] + d[8] * w[8] + WeightedSum(d[9..], w[9..])
  {
    SumOfSix(d, w);
    SumOfThree(d[6..], w[6..]);
    assert d[6..][3..] == d[9..] && w[6..][3..] == w[9..];
  }

  lemma CpfSums(d: Digits)
    requires |d| == 11
    ensures CpfSum(d, 9) ==
            d[0] * 10 + d[1] * 9 + d[2] * 8 + d[3] * 7 + d[4] * 6 + d[5] * 5 + d[6] * 4 + d[7] * 3 + d[8] * 2
    ensures CpfSum(d, 10) ==
            d[0] * 11 + d[1] * 10 + d[2] * 9 + d[3] * 8 + d[4] * 7
            + d[5] * 6 + d[6] * 5 + d[7] * 4 + d[8] * 3 + d[9] * 2
  {
    SumOfNine(d[..9], CpfWeights(9));
    SumOfNine(d[..10], CpfWeights(10));
    assert d[..10][9..] == [d[9]] && CpfWeights(10)[9..] == [2];
  }

  lemma BlindCpfs()
    ensures ValidCpf(BLIND_CPF) && CpfSum(BLIND_CPF, 9) == 176
    ensures ValidCpf(BLIND_CPF_LATER) && CpfSum(BLIND_CPF_LATER, 9) == 265 && CpfSum(BLIND_CPF_LATER, 10) == 308
  {
    hide WeightedSum, CpfSum;
    CpfSums(BLIND_CPF);
    CpfSums(BLIND_CPF_LATER);
    assert BLIND_CPF[1] != BLIND_CPF[0] && BLIND_CPF_LATER[1] != BLIND_CPF_LATER[0];
  }

  /** Both blind positions are inhabited: valid CPFs one digit apart at 0 and at 5. */
  lemma CpfBlindSpotExists()
    ensures ValidCpf(BLIND_CPF) && ValidCpf(BLIND_CPF[0 := 0])
    ensures ValidCpf(BLIND_CPF_LATER) && ValidCpf(BLIND_CPF_LATER[5 := 8])
  {
    hide WeightedSum, CpfSum, ValidCpf;
    BlindCpfs();
    CpfSubstitution(BLIND_CPF, 0, 0);
    CpfSubstitution(BLIND_CPF_LATER, 5, 8);
  }

  /** Every single-digit substitution in a CPF whose first check digit is not 0 is rejected. */
  lemma CpfDetectsSubstitution(d: Digits, i: nat, x: nat)
    requires ValidCpf(d) && IsDecimal(d) && d[9] != 0
    requires i < 11 && x <= 9 && x != d[i]
    ensures !ValidCpf(d[i := x])
  {
    CpfSubstitution(d, i, x);
  }

  // ----- The two CNPJ validators -----

  // ----- As text -----

  lemma {:induction false} DigitsNormalize(text: string)
    requires AllDigits(text)
    ensures NormalizeIdentifier(text) == text
  {
    if text != "" {
      assert text[0] in text;
      assert forall c | c in text[1..] :: c in text;
      DigitsNormalize(text[1..]);
    }
  }

  lemma ChangedText(text: string, i: nat, c: char)
    requires AllDigits(text) && i < |text| && IsDigit(c)
    ensures AllDigits(text[i := c]) && NormalizeIdentifier(text[i := c]) == text[i := c]
    ensures DigitsOf(text[i := c]) == DigitsOf(text)[i := DigitValue(c)]
    ensures IsDecimal(DigitsOf(text)) && DigitValue(c) <= 9 && (c != text[i] ==> DigitValue(c) != DigitsOf(text)[i])
  {
    forall k | 0 <= k < |text| ensures IsDigit(text[k]) && DigitsOf(text)[k] <= 9 {
      assert text[k] in text;
    }
    DigitsNormalize(text[i := c]);
  }

  /** One wrong digit in a CPF the account service has accepted is accepted exactly in the blind spot. */
  lemma CpfTextSubstitution(value: string, text: string, i: nat, c: char)
    requires ValidateCpf(value) == Some(text) && i < |text| && IsDigit(c) && c != text[i]
    ensures |text| == 11 && AllDigits(text)
    ensures ValidateCpf(text[i := c]) ==
            if CpfBlindSpot(DigitsOf(text), i, DigitValue(c)) then Some(text[i := c]) else None
  {
    hide ValidCpf, CpfBlindSpot;
    ChangedText(text, i, c);
    CpfSubstitution(DigitsOf(text), i, DigitValue(c));
  }

  /** The same for a CNPJ. */
  lemma CnpjTextSubstitution(value: string, text: string, i: nat, c: char)
    requires ValidateCnpj(value) == Some(text) && i < |text| && IsDigit(c) && c != text[i]
    ensures |text| == 14 && AllDigits(text)
    ensures ValidateCnpj(text[i := c]) ==
            if CnpjBlindSpot(DigitsOf(text), i, DigitValue(c)) then Some(text[i := c]) else None
  {
    hide ValidCnpj, CnpjBlindSpot;
    ChangedText(text, i, c);
    CnpjSubstitution(DigitsOf(text), i, DigitValue(c));
  }

  lemma {:induction false} NormalizersAgree(value: string)
    requires !HasLetter(value)
    ensures NormalizeIdentifier(value) == KeepDigits(value)
  {
    if value != "" {
      assert value[0] in value && !IsLetter(value[0]);
      assert forall c | c in value[1..] :: c in value;
      NormalizersAgree(value[1..]);
    }
  }

  lemma {:induction false} LettersAreKept(value: string)
    requires HasLetter(value)
    ensures !AllDigits(NormalizeIdentifier(value))
  {
    var c := Upper(value[0]);
    if IsLetter(value[0]) {
      assert NormalizeIdentifier(value)[0] == c;
      assert c in NormalizeIdentifier(value);
    } else {
      var l :| l in value && IsLetter(l);
      assert l in value[1..];
      LettersAreKept(value[1..]);
      var rest := NormalizeIdentifier(value[1..]);
      var k :| k in rest && !IsDigit(k);
      assert k in NormalizeIdentifier(value);
    }
  }

  /**
   On ASCII text the two CNPJ validators give the same answer except on one family: text with a
   letter in it whose digits alone form a valid CNPJ, which only the tenant service accepts.
   */
  lemma CnpjValidatorsAgree(value: string)
    requires IsAscii(value)
    ensures AllDigits(KeepDigits(value))
    ensures ValidateCnpj(value) != NormalizeCnpj(value) <==> HasLetter(value) && ValidCnpj(DigitsOf(KeepDigits(value)))
    ensures ValidateCnpj(value) != NormalizeCnpj(value) ==>
              ValidateCnpj(value).None? && NormalizeCnpj(value) == Some(KeepDigits(value))
  {
    KeptAreDigits(value);
    if HasLetter(value) {
      LettersAreKept(value);
    } else {
      NormalizersAgree(value);
    }
  }

  lemma {:induction false} DigitsAreKept(value: string)
    requires AllDigits(value)
    ensures KeepDigits(value) == value
  {
    if value != "" {
      assert value[0] in value;
      assert forall c | c in value[1..] :: c in value;
      DigitsAreKept(value[1..]);
    }
  }

  /** Every valid CNPJ with a letter in front of it belongs to the family. */
  lemma CnpjValidatorsDiffer(letter: char, digits: string)
    requires IsLetter(letter) && AllDigits(digits) && ValidCnpj(DigitsOf(digits))
    ensures ValidateCnpj([letter] + digits).None? && NormalizeCnpj([letter] + digits) == Some(digits)
  {
    hide ValidCnpj;
    var value := [letter] + digits;
    assert value[0] == letter && value[1..] == digits;
    assert !IsDigit(letter);
    DigitsAreKept(digits);
    assert KeepDigits(value) == [] + KeepDigits(value[1..]) == digits;
    CnpjValidatorsAgree(value);
    LettersAreKept(value);
  }

  const BLIND_CNPJ_TEXT := "68387380000100"

  /** One such text, of fifteen characters. */
  lemma CnpjWithLetter()
    ensures ValidateCnpj("A" + BLIND_CNPJ_TEXT).None? && NormalizeCnpj("A" + BLIND_CNPJ_TEXT) == Some(BLIND_CNPJ_TEXT)
  {
    hide ValidCnpj, ValidateCnpj, NormalizeCnpj;
    assert DigitsOf(BLIND_CNPJ_TEXT) == BLIND_CNPJ;
    CnpjBlindSpotExists();
    CnpjValidatorsDiffer('A', BLIND_CNPJ_TEXT);
    assert ['A'] + BLIND_CNPJ_TEXT == "A" + BLIND_CNPJ_TEXT;
  }
}
