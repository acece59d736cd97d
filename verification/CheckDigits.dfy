/**
 The check digits that decide whether a number is masked
 (packages/ai/src/redact.ts): Luhn for card numbers (Annex B of ISO/IEC 7812-1)
 and MOD 97-10 for IBANs (ISO 13616, ISO/IEC 7064), over numbers of any length.
 */
module CheckDigits {

  predicate IsDigit(c: char) {
    '0' <= c <= '9'
  }

  predicate IsDigits(s: string) {
    forall i :: 0 <= i < |s| ==> IsDigit(s[i])
  }

  function DigitOf(c: char): int {
    c as int - 48
  }

  // ----- Luhn -----

  /** What a digit adds: doubled, the sum of the two digits of its double. */
  function Share(d: int, doubled: bool): int {
    if doubled then 2 * d / 10 + 2 * d % 10 else d
  }

  /** From the right, every second digit is doubled. */
  function LuhnSum(s: string): int {
    if s == "" then 0
    else Share(DigitOf(s[0]), |s| % 2 == 0) + LuhnSum(s[1..])
  }

  predicate IsLuhn(s: string) {
    LuhnSum(s) % 10 == 0
  }

  lemma NextParity(n: int)
    ensures n % 2 == 1 <==> (n + 1) % 2 == 0
  {
  }

  /** The scan from the right, with a flag that flips at every digit. */
  method LuhnValid(digits: string) returns (valid: bool)
    requires IsDigits(digits)
    ensures valid == IsLuhn(digits)
  {
    var sum, double := 0, false;
    var i := |digits| - 1;
    while i >= 0
      invariant -1 <= i < |digits|
      invariant sum == LuhnSum(digits[i + 1..])
      invariant double == ((|digits| - 1 - i) % 2 == 1)
    {
      assert IsDigit(digits[i]);
      var d := DigitOf(digits[i]);
      ShareOfDouble(d);
      NextParity(|digits| - 1 - i);
      if double {
        d := d * 2;
        if d > 9 { d := d - 9; }
      }
      assert d == Share(DigitOf(digits[i]), double);
      assert digits[i..][1..] == digits[i + 1..];
      sum := sum + d;
      double := !double;
      i := i - 1;
    }
    return sum % 10 == 0;
  }

  /** Replacing one digit moves the sum by the difference of the two shares. */
  lemma {:induction false} LuhnUpdate(s: string, i: nat, c: char)
    requires i < |s|
    ensures LuhnSum(s[i := c]) - LuhnSum(s)
            == Share(DigitOf(c), (|s| - i) % 2 == 0) - Share(DigitOf(s[i]), (|s| - i) % 2 == 0)
  {
    if i == 0 {
      assert s[i := c][1..] == s[1..];
    } else {
      LuhnUpdate(s[1..], i - 1, c);
      assert s[i := c][1..] == s[1..][i - 1 := c];
    }
  }

  /** A number of zeros is valid, and its sum grows by the share of each digit that is set. */
  lemma {:induction false} ZerosAreLuhn(s: string)
    requires forall i :: 0 <= i < |s| ==> s[i] == '0'
    ensures LuhnSum(s) == 0
  {
    if s != "" {
      ZerosAreLuhn(s[1..]);
    }
  }

  /** One digit set in a number of zeros adds itself, or the digits of its double at every second place from the right. */
  lemma OneDigitAdds(zeros: string, i: nat, c: char)
    requires (forall k :: 0 <= k < |zeros| ==> zeros[k] == '0') && i < |zeros| && IsDigit(c)
    ensures var d, place := c as int - '0' as int, |zeros| - i;
            LuhnSum(zeros[i := c]) == if place % 2 == 1 then d else if d < 5 then 2 * d else 2 * d - 9
  {
    ZerosAreLuhn(zeros);
    LuhnUpdate(zeros, i, c);
    ShareOfDouble(DigitOf(c));
    ShareOfDouble(0);
  }

  lemma SmallMultiple(x: int)
    requires -10 < x < 10
    ensures x % 10 == 0 <==> x == 0
  {
  }

  lemma MultipleShift(a: int, b: int)
    requires a % 10 == 0
    ensures b % 10 == 0 <==> (b - a) % 10 == 0
  {
  }

  /** The sum of the digits of a double: nine less than the double from 5 on. */
  lemma ShareOfDouble(d: int)
    requires 0 <= d <= 9
    ensures Share(d, true) == if d >= 5 then 2 * d - 9 else 2 * d
  {
  }

  lemma SharesDiffer(a: int, b: int, doubled: bool)
    requires 0 <= a <= 9 && 0 <= b <= 9
    ensures (Share(a, doubled) - Share(b, doubled)) % 10 == 0 <==> a == b
  {
    ShareOfDouble(a);
    ShareOfDouble(b);
    SmallMultiple(Share(a, doubled) - Share(b, doubled));
  }

  /** A change of one digit of a valid number is always found. */
  lemma LuhnFindsOneDigit(s: string, i: nat, c: char)
    requires IsDigits(s) && i < |s| && IsDigit(c) && c != s[i]
    requires IsLuhn(s)
    ensures !IsLuhn(s[i := c])
  {
    LuhnUpdate(s, i, c);
    MultipleShift(LuhnSum(s), LuhnSum(s[i := c]));
    SharesDiffer(DigitOf(c), DigitOf(s[i]), (|s| - i) % 2 == 0);
  }

  function Swapped(s: string, i: nat): string
    requires i + 1 < |s|
  {
    s[i := s[i + 1]][i + 1 := s[i]]
  }

  /** 09 and 90 have the same shares, and no other pair of different digits does. */
  lemma SwapShares(a: int, b: int, doubled: bool)
    requires 0 <= a <= 9 && 0 <= b <= 9
    ensures (Share(b, doubled) + Share(a, !doubled) - Share(a, doubled) - Share(b, !doubled)) % 10 == 0
            <==> a == b || (a == 0 && b == 9) || (a == 9 && b == 0)
  {
    ShareOfDouble(a);
    ShareOfDouble(b);
    SmallMultiple(Share(b, doubled) + Share(a, !doubled) - Share(a, doubled) - Share(b, !doubled));
  }

  predicate IsDoubled(s: string, i: nat)
    requires i < |s|
  {
    (|s| - i) % 2 == 0
  }

  lemma EverySecondIsDoubled(s: string, i: nat)
    requires i + 1 < |s|
    ensures IsDoubled(s, i + 1) <==> !IsDoubled(s, i)
  {
  }

  lemma LuhnReplace(s: string, t: string, i: nat, from: char, to: char, doubled: bool)
    requires i < |s| && s[i] == from && t == s[i := to] && doubled == IsDoubled(s, i)
    ensures LuhnSum(t) == LuhnSum(s) + Share(DigitOf(to), doubled) - Share(DigitOf(from), doubled)
  {
    LuhnUpdate(s, i, to);
  }

  /** Swapping two neighbours of a valid number is found exactly when they are not 09 or 90 (or equal). */
  lemma LuhnFindsSwap(s: string, i: nat)
    requires IsDigits(s) && i + 1 < |s| && IsLuhn(s)
    ensures IsLuhn(Swapped(s, i)) <==>
            s[i] == s[i + 1] || (s[i] == '0' && s[i + 1] == '9') || (s[i] == '9' && s[i + 1] == '0')
  {
    var a, b, doubled := s[i], s[i + 1], IsDoubled(s, i);
    var t := s[i := b];
    EverySecondIsDoubled(s, i);
    EverySecondIsDoubled(t, i);
    LuhnReplace(s, t, i, a, b, doubled);
    LuhnReplace(t, Swapped(s, i), i + 1, b, a, !doubled);
    MultipleShift(LuhnSum(s), LuhnSum(Swapped(s, i)));
    SwapShares(DigitOf(a), DigitOf(b), doubled);
  }

  /** Every number has exactly one check digit. */
  lemma LuhnCheckDigit(s: string) returns (c: char)
    requires IsDigits(s)
    ensures IsDigit(c) && IsLuhn(s + [c])
    ensures forall d :: IsDigit(d) && IsLuhn(s + [d]) ==> d == c
  {
    var sum := LuhnSum(s + ['0']);
    var d := MissingDigit(sum);
    c := (48 + d) as char;
    LuhnAppend(s, c);
    forall e | IsDigit(e) && IsLuhn(s + [e])
      ensures e == c
    {
      LuhnAppend(s, e);
      MultipleShift(sum + d, sum + DigitOf(e));
      SmallMultiple(DigitOf(e) - d);
    }
  }

  lemma MissingDigit(sum: int) returns (d: int)
    ensures 0 <= d <= 9 && (sum + d) % 10 == 0
  {
    d := (10 - sum % 10) % 10;
  }

  lemma LuhnAppend(s: string, c: char)
    ensures LuhnSum(s + [c]) == LuhnSum(s + ['0']) + DigitOf(c)
  {
    LuhnUpdate(s + ['0'], |s|, c);
    assert (s + ['0'])[|s| := c] == s + [c];
  }

  // ----- IBAN -----

  predicate IsLetter(c: char) {
    'A' <= c <= 'Z'
  }

  predicate IsIbanText(s: string) {
    forall i :: 0 <= i < |s| ==> IsDigit(s[i]) || IsLetter(s[i])
  }

  function WithoutSpaces(s: string): (r: string)
    ensures (forall i :: 0 <= i < |s| ==> s[i] == ' ' || IsDigit(s[i]) || IsLetter(s[i])) ==> IsIbanText(r)
  {
    if s == "" then "" else (if s[0] == ' ' then "" else [s[0]]) + WithoutSpaces(s[1..])
  }

  /** The country code and the check digits move to the end. */
  function Rearranged(iban: string): string {
    if |iban| < 4 then iban else iban[4..] + iban[..4]
  }

  /** A letter stands for two digits (A = 10 to Z = 35), a digit for itself. */
  function Digits(c: char): seq<int> {
    if c as int >= 65 then [(c as int - 55) / 10, (c as int - 55) % 10] else [DigitOf(c)]
  }

  /** The decimal digits of a character write its place: 0 to 9 for a digit, 10 for an A, one more for each letter after it. */
  lemma DigitsWritePlace(c: char)
    ensures '0' <= c <= '9' || 'A' <= c <= 'Z' <==> IsIbanText([c])
    ensures '0' <= c <= '9' ==> Number(Digits(c)) == c as int - '0' as int
    ensures 'A' <= c <= 'Z' ==> Number(Digits(c)) == 10 + (c as int - 'A' as int)
    ensures IsIbanText([c]) ==> forall d :: d in Digits(c) ==> 0 <= d <= 9
  {
    if 'A' <= c <= 'Z' {
      NumberAppend([], (c as int - 55) / 10);
      NumberAppend([(c as int - 55) / 10], (c as int - 55) % 10);
      assert Digits(c) == [] + [(c as int - 55) / 10] + [(c as int - 55) % 10];
    } else {
      NumberAppend([], DigitOf(c));
      assert '0' <= c <= '9' ==> Digits(c) == [] + [DigitOf(c)];
    }
    assert [c][0] == c;
  }

  function Expanded(s: string): seq<int> {
    if s == "" then [] else Digits(s[0]) + Expanded(s[1..])
  }

  /** The number written by decimal digits. */
  function Number(digits: seq<int>): int {
    if digits == [] then 0 else 10 * Number(digits[..|digits| - 1]) + digits[|digits| - 1]
  }

  predicate IsIban(iban: string) {
    Number(Expanded(Rearranged(iban))) % 97 == 1
  }

  lemma NumberAppend(digits: seq<int>, d: int)
    ensures Number(digits + [d]) == 10 * Number(digits) + d
  {
    assert (digits + [d])[..|digits|] == digits;
  }

  lemma {:induction false} ExpandedAppend(s: string, c: char)
    ensures Expanded(s + [c]) == Expanded(s) + Digits(c)
  {
    if s == "" {
      assert s + [c] == [c];
      assert [c][1..] == "";
    } else {
      ExpandedAppend(s[1..], c);
      assert (s + [c])[1..] == s[1..] + [c];
    }
  }

  lemma ExpandedStep(s: string, i: nat)
    requires i < |s|
    ensures Expanded(s[..i + 1]) == Expanded(s[..i]) + Digits(s[i])
  {
    ExpandedAppend(s[..i], s[i]);
    assert s[..i + 1] == s[..i] + [s[i]];
  }

  /** One step of the remainder. */
  lemma StreamStep(digits: seq<int>, d: int)
    ensures (Number(digits) % 97 * 10 + d) % 97 == Number(digits + [d]) % 97
  {
    NumberAppend(digits, d);
    RemainderStep(Number(digits), d);
  }

  lemma RemainderStep(n: int, d: int)
    ensures (n % 97 * 10 + d) % 97 == (10 * n + d) % 97
  {
  }

  /** The remainder continued over the digits of one character. */
  method Continue(remainder: int, value: seq<int>, ghost before: seq<int>) returns (r: int)
    requires remainder == Number(before) % 97
    ensures r == Number(before + value) % 97
  {
    r := remainder;
    assert before + value[..0] == before;
    for j := 0 to |value|
      invariant r == Number(before + value[..j]) % 97
    {
      StreamStep(before + value[..j], value[j]);
      assert before + value[..j + 1] == before + value[..j] + [value[j]];
      r := (r * 10 + value[j]) % 97;
    }
    assert value[..|value|] == value;
  }

  /** The streaming remainder, two steps for a letter, is the remainder of the whole number. */
  method IbanValid(candidate: string) returns (valid: bool)
    requires IsIbanText(WithoutSpaces(candidate))
    ensures valid == IsIban(WithoutSpaces(candidate))
  {
    var rearranged := Rearranged(WithoutSpaces(candidate));
    var remainder := 0;
    for i := 0 to |rearranged|
      invariant remainder == Number(Expanded(rearranged[..i])) % 97
    {
      remainder := Continue(remainder, Digits(rearranged[i]), Expanded(rearranged[..i]));
      ExpandedStep(rearranged, i);
    }
    assert rearranged[..|rearranged|] == rearranged;
    return remainder == 1;
  }

  // ----- what MOD 97-10 finds -----

  function Base(c: char): int {
    if IsLetter(c) then 100 else 10
  }

  function ValueOf(c: char): int {
    if IsLetter(c) then c as int - 55 else DigitOf(c)
  }

  /** The weight a position has when `s` follows it. */
  function Weight(s: string): int {
    if s == "" then 1 else Base(s[0]) * Weight(s[1..])
  }

  /** The expanded number, character by character. */
  function IbanNumber(s: string): int {
    if s == "" then 0 else ValueOf(s[0]) * Weight(s[1..]) + IbanNumber(s[1..])
  }

  lemma Associate(a: int, b: int, c: int)
    ensures a * (b * c) == a * b * c
  {
  }

  lemma Distribute(a: int, b: int, c: int)
    ensures (a + b) * c == a * c + b * c
  {
  }

  lemma {:induction false} WeightAppend(s: string, c: char)
    ensures Weight(s + [c]) == Weight(s) * Base(c)
  {
    if s == "" {
      assert s + [c] == [c];
      assert [c][1..] == "";
    } else {
      WeightAppend(s[1..], c);
      assert (s + [c])[1..] == s[1..] + [c];
      Associate(Base(s[0]), Weight(s[1..]), Base(c));
    }
  }

  lemma {:induction false} IbanNumberAppend(s: string, c: char)
    ensures IbanNumber(s + [c]) == IbanNumber(s) * Base(c) + ValueOf(c)
  {
    if s == "" {
      assert s + [c] == [c];
      assert [c][1..] == "";
    } else {
      IbanNumberAppend(s[1..], c);
      WeightAppend(s[1..], c);
      assert (s + [c])[1..] == s[1..] + [c];
      Associate(ValueOf(s[0]), Weight(s[1..]), Base(c));
      Distribute(ValueOf(s[0]) * Weight(s[1..]), IbanNumber(s[1..]), Base(c));
    }
  }

  /** The digits of the expanded text write the same number. */
  lemma {:induction false} NumberIsIbanNumber(s: string)
    requires IsIbanText(s)
    ensures Number(Expanded(s)) == IbanNumber(s)
  {
    if s != "" {
      var init, c := s[..|s| - 1], s[|s| - 1];
      assert s == init + [c];
      NumberIsIbanNumber(init);
      ExpandedAppend(init, c);
      IbanNumberAppend(init, c);
      if IsLetter(c) {
        assert Digits(c) == [(c as int - 55) / 10] + [(c as int - 55) % 10];
        NumberAppend(Expanded(init), (c as int - 55) / 10);
        NumberAppend(Expanded(init) + [(c as int - 55) / 10], (c as int - 55) % 10);
        assert Expanded(s) == Expanded(init) + [(c as int - 55) / 10] + [(c as int - 55) % 10];
      } else {
        NumberAppend(Expanded(init), DigitOf(c));
      }
    }
  }

  /** 10 has an inverse modulo 97. */
  lemma TenTimes(d: int)
    requires d % 97 != 0
    ensures (10 * d) % 97 != 0 && (100 * d) % 97 != 0
  {
  }

  lemma {:induction false} WeightKeepsDifference(d: int, s: string)
    requires d % 97 != 0
    ensures (d * Weight(s)) % 97 != 0
    decreases s
  {
    if s != "" {
      TenTimes(d);
      WeightKeepsDifference(d * Base(s[0]), s[1..]);
      Associate(d, Base(s[0]), Weight(s[1..]));
    }
  }

  lemma Subtract(a: int, b: int, c: int)
    ensures (a - b) * c == a * c - b * c
  {
  }

  lemma {:induction false} WeightUpdate(s: string, i: nat, c: char)
    requires i < |s| && IsLetter(s[i]) == IsLetter(c)
    ensures Weight(s[i := c]) == Weight(s)
  {
    if i == 0 {
      assert s[i := c][1..] == s[1..];
    } else {
      WeightUpdate(s[1..], i - 1, c);
      assert s[i := c][1..] == s[1..][i - 1 := c];
    }
  }

  /** Replacing a character by one of the same kind moves the number by the difference at its weight. */
  lemma {:induction false} IbanNumberUpdate(s: string, i: nat, c: char)
    requires i < |s| && IsLetter(s[i]) == IsLetter(c)
    ensures IbanNumber(s[i := c]) - IbanNumber(s) == (ValueOf(c) - ValueOf(s[i])) * Weight(s[i + 1..])
  {
    if i == 0 {
      assert s[i := c][1..] == s[1..];
      Subtract(ValueOf(c), ValueOf(s[0]), Weight(s[1..]));
    } else {
      IbanNumberUpdate(s[1..], i - 1, c);
      WeightUpdate(s[1..], i - 1, c);
      assert s[i := c][1..] == s[1..][i - 1 := c];
      assert s[1..][i - 1 + 1..] == s[i + 1..];
    }
  }

  predicate SameKind(c: char, d: char) {
    (IsDigit(c) && IsDigit(d)) || (IsLetter(c) && IsLetter(d))
  }

  /** The place a character of the IBAN has after the rearrangement. */
  function Place(iban: string, i: nat): nat
    requires |iban| >= 4 && i < |iban|
  {
    if i >= 4 then i - 4 else |iban| - 4 + i
  }

  lemma RearrangedUpdate(iban: string, i: nat, c: char)
    requires |iban| >= 4 && i < |iban|
    ensures Place(iban, i) < |Rearranged(iban)| == |iban|
    ensures Rearranged(iban)[Place(iban, i)] == iban[i]
    ensures Rearranged(iban[i := c]) == Rearranged(iban)[Place(iban, i) := c]
  {
  }

  lemma Congruent(a: int, b: int)
    ensures (a - b) % 97 == 0 <==> a % 97 == b % 97
  {
  }

  /** Two IBANs that differ in one digit, or in one letter, are never both valid. */
  lemma IbanFindsOneCharacter(iban: string, i: nat, c: char)
    requires |iban| >= 4 && IsIbanText(iban)
    requires i < |iban| && SameKind(iban[i], c) && c != iban[i]
    ensures !(IsIban(iban) && IsIban(iban[i := c]))
  {
    var text, j := Rearranged(iban), Place(iban, i);
    RearrangedUpdate(iban, i, c);
    NumberIsIbanNumber(text);
    NumberIsIbanNumber(text[j := c]);
    IbanNumberUpdate(text, j, c);
    WeightKeepsDifference(ValueOf(c) - ValueOf(iban[i]), text[j + 1..]);
    Congruent(IbanNumber(text[j := c]), IbanNumber(text));
  }

  /** The number of a text in two parts. */
  lemma {:induction false} IbanNumberSplit(x: string, y: string)
    ensures IbanNumber(x + y) == IbanNumber(x) * Weight(y) + IbanNumber(y)
  {
    if y == "" {
      assert x + y == x;
    } else {
      var init, c := y[..|y| - 1], y[|y| - 1];
      assert y == init + [c] && x + y == x + init + [c];
      IbanNumberSplit(x, init);
      SplitStep(x, init, c);
    }
  }

  lemma SplitStep(x: string, y: string, c: char)
    requires IbanNumber(x + y) == IbanNumber(x) * Weight(y) + IbanNumber(y)
    ensures IbanNumber(x + y + [c]) == IbanNumber(x) * Weight(y + [c]) + IbanNumber(y + [c])
  {
    IbanNumberAppend(x + y, c);
    IbanNumberAppend(y, c);
    WeightAppend(y, c);
    Distribute(IbanNumber(x) * Weight(y), IbanNumber(y), Base(c));
    Associate(IbanNumber(x), Weight(y), Base(c));
  }

  /** Swapping the last two characters, of one kind, moves the number by 9 or 99 times their difference. */
  lemma SwapAtEnd(p: string, a: char, b: char)
    requires SameKind(a, b)
    ensures IbanNumber(p + [b] + [a]) - IbanNumber(p + [a] + [b]) == (ValueOf(b) - ValueOf(a)) * (Base(a) - 1)
  {
    IbanNumberAppend(p, a);
    IbanNumberAppend(p + [a], b);
    IbanNumberAppend(p, b);
    IbanNumberAppend(p + [b], a);
  }

  /** A swap of two different neighbours of one kind changes the remainder. */
  lemma SwapFound(p: string, a: char, b: char, y: string)
    requires SameKind(a, b) && a != b
    ensures IbanNumber(p + [b] + [a] + y) % 97 != IbanNumber(p + [a] + [b] + y) % 97
  {
    var n, n' := IbanNumber(p + [a] + [b]), IbanNumber(p + [b] + [a]);
    SwapAtEnd(p, a, b);
    NineTimes(ValueOf(b) - ValueOf(a), IsLetter(a));
    WeightKeepsDifference(n' - n, y);
    IbanNumberSplit(p + [a] + [b], y);
    IbanNumberSplit(p + [b] + [a], y);
    Subtract(n', n, Weight(y));
    Congruent(IbanNumber(p + [b] + [a] + y), IbanNumber(p + [a] + [b] + y));
  }

  lemma NineTimes(d: int, letter: bool)
    requires d != 0 && -25 <= d <= 25 && (!letter ==> -9 <= d <= 9)
    ensures (d * ((if letter then 100 else 10) - 1)) % 97 != 0
  {
  }

  /** After the rearrangement the two neighbours are still neighbours, and swapped. */
  lemma RearrangedSwap(iban: string, i: nat)
    requires |iban| >= 4 && i + 1 < |iban| && i != 3
    ensures Place(iban, i + 1) == Place(iban, i) + 1 < |Rearranged(iban)|
    ensures Rearranged(Swapped(iban, i)) == Swapped(Rearranged(iban), Place(iban, i))
  {
    RearrangedUpdate(iban, i, iban[i + 1]);
    RearrangedUpdate(iban, i + 1, iban[i]);
    RearrangedUpdate(iban[i := iban[i + 1]], i + 1, iban[i]);
  }

  /** The text before and after the two neighbours, once rearranged. */
  lemma AroundSwap(iban: string, i: nat) returns (p: string, y: string)
    requires |iban| >= 4 && i + 1 < |iban| && i != 3
    ensures Rearranged(iban) == p + [iban[i]] + [iban[i + 1]] + y
    ensures Rearranged(Swapped(iban, i)) == p + [iban[i + 1]] + [iban[i]] + y
  {
    var text, j := Rearranged(iban), Place(iban, i);
    RearrangedUpdate(iban, i, iban[i + 1]);
    RearrangedUpdate(iban, i + 1, iban[i]);
    RearrangedSwap(iban, i);
    p, y := text[..j], text[j + 2..];
  }

  lemma RearrangedText(iban: string)
    requires IsIbanText(iban)
    ensures IsIbanText(Rearranged(iban))
  {
  }

  lemma SwappedText(iban: string, i: nat)
    requires IsIbanText(iban) && i + 1 < |iban|
    ensures IsIbanText(Swapped(iban, i))
  {
  }

  /** Two neighbours that are still neighbours once rearranged. */
  lemma SwapInsideFound(iban: string, i: nat)
    requires |iban| >= 4 && IsIbanText(iban)
    requires i + 1 < |iban| && i != 3 && SameKind(iban[i], iban[i + 1]) && iban[i] != iban[i + 1]
    ensures !(IsIban(iban) && IsIban(Swapped(iban, i)))
  {
    RearrangedText(iban);
    SwappedText(iban, i);
    RearrangedText(Swapped(iban, i));
    NumberIsIbanNumber(Rearranged(iban));
    NumberIsIbanNumber(Rearranged(Swapped(iban, i)));
    var p, y := AroundSwap(iban, i);
    SwapFound(p, iban[i], iban[i + 1], y);
  }

  // ----- the pair that the rearrangement takes apart -----

  /** The last check digit and the first character after it stand last and first once rearranged. */
  lemma ApartSwap(iban: string) returns (mid: string)
    requires |iban| >= 5
    ensures Rearranged(iban) == [iban[4]] + mid + [iban[3]]
    ensures Rearranged(Swapped(iban, 3)) == [iban[3]] + mid + [iban[4]]
    ensures |mid| == |iban| - 2
  {
    mid := iban[5..] + iban[..3];
    assert Swapped(iban, 3)[4..] == [iban[3]] + iban[5..];
    assert Swapped(iban, 3)[..4] == iban[..3] + [iban[4]];
  }

  /** The number of a text with the characters `b` and `a` at its ends. */
  lemma EndsNumber(b: char, mid: string, a: char, w: int, m: int)
    requires w == Weight(mid) * Base(a) && m == IbanNumber(mid) * Base(a)
    ensures IbanNumber([b] + mid + [a]) == ValueOf(b) * w + m + ValueOf(a)
  {
    IbanNumberAppend([b] + mid, a);
    assert ([b] + mid)[1..] == mid;
    Distribute(ValueOf(b) * Weight(mid), IbanNumber(mid), Base(a));
    Associate(ValueOf(b), Weight(mid), Base(a));
  }

  /** Swapping two characters of one kind at the ends moves the number by their difference times the weight less one. */
  lemma SwapOfEnds(b: char, mid: string, a: char, w: int)
    requires SameKind(a, b) && w == Weight(mid) * Base(a)
    ensures IbanNumber([a] + mid + [b]) - IbanNumber([b] + mid + [a]) == (ValueOf(a) - ValueOf(b)) * (w - 1)
  {
    var m := IbanNumber(mid) * Base(a);
    EndsNumber(b, mid, a, w, m);
    EndsNumber(a, mid, b, w, m);
    EndsDiffer(ValueOf(a), ValueOf(b), w, m);
  }

  lemma EndsDiffer(a: int, b: int, w: int, m: int)
    ensures (a * w + m + b) - (b * w + m + a) == (a - b) * (w - 1)
  {
    Subtract(a, b, w - 1);
  }

  /** No number from 2 to 25 divides 97, so the remainders of 97 lead down to 1. */
  lemma {:induction false} SmallFactor(d: int, m: int)
    requires 0 < d <= 25 && (d * m) % 97 == 0
    ensures m % 97 == 0
    decreases d
  {
    if d > 1 {
      var q, s := 97 / d, 97 % d;
      NoSmallDivisor(d);
      assert s * m == 97 * m - q * (d * m) by {
        Subtract(97, q * d, m);
        Associate(q, d, m);
      }
      MultipleTimes(q, d * m);
      Combine(m, q * (d * m));
      SmallFactor(s, m);
    }
  }

  lemma NoSmallDivisor(d: int)
    requires 2 <= d <= 25
    ensures 0 < 97 % d < d
  {
  }

  lemma MultipleTimes(q: int, x: int)
    requires x % 97 == 0
    ensures (q * x) % 97 == 0
  {
    Associate(q, 97, x / 97);
    assert q * x == 97 * (q * (x / 97));
  }

  lemma Combine(m: int, x: int)
    requires x % 97 == 0
    ensures (97 * m - x) % 97 == 0
  {
  }

  // ----- powers of 10 modulo 97 -----

  /** 10 to the power `k`, modulo 97. */
  function TenTo(k: nat): int {
    if k == 0 then 1 else TenTo(k - 1) * 10 % 97
  }

  const OCTET := [1, 10, 3, 30, 9, 90, 27, 76, 81]
  const EIGHTHS := [1, 81, 62, 75, 61, 91, 96, 16, 35, 22, 36, 6, 1]

  lemma {:induction false} TenToAdds(a: nat, b: nat)
    ensures TenTo(a + b) == TenTo(a) * TenTo(b) % 97
  {
    if b > 0 {
      TenToAdds(a, b - 1);
      StepTimes(TenTo(a), TenTo(b - 1));
    } else {
      TenToIsReduced(a);
    }
  }

  lemma TenToIsReduced(a: nat)
    ensures 0 <= TenTo(a) < 97
  {
  }

  lemma StepTimes(x: int, y: int)
    ensures (x * y % 97) * 10 % 97 == x * (y * 10 % 97) % 97
  {
    RemainderStep(x * y, 0);
    TimesRemainder(x, y * 10);
    Associate(x, y, 10);
  }

  lemma TimesRemainder(x: int, y: int)
    ensures x * (y % 97) % 97 == x * y % 97
  {
    TimesSum(x, y / 97, y % 97);
    assert y == 97 * (y / 97) + y % 97;
  }

  lemma TimesSum(x: int, u: int, v: int)
    ensures x * v % 97 == x * (97 * u + v) % 97
  {
    assert x * (97 * u + v) == 97 * (x * u) + x * v;
    ModShift(x * u, x * v);
  }

  lemma ModShift(k: int, x: int)
    ensures (97 * k + x) % 97 == x % 97
  {
  }

  lemma {:induction false} InOctet(r: nat)
    requires r <= 8
    ensures TenTo(r) == OCTET[r]
  {
    if r > 0 {
      InOctet(r - 1);
      NextInOctet(r);
    }
  }

  lemma NextInOctet(r: nat)
    requires 0 < r <= 8
    ensures OCTET[r - 1] * 10 % 97 == OCTET[r]
  {
  }

  lemma AddOctet(a: nat, r: nat)
    requires r <= 8
    ensures TenTo(a + r) == TenTo(a) * OCTET[r] % 97
  {
    TenToAdds(a, r);
    InOctet(r);
  }

  lemma {:induction false} AtEighth(q: nat)
    requires q <= 12
    ensures TenTo(8 * q) == EIGHTHS[q]
  {
    if q > 0 {
      AtEighth(q - 1);
      AddOctet(8 * (q - 1), 8);
      NextEighth(q);
    }
  }

  lemma NextEighth(q: nat)
    requires 0 < q <= 12
    ensures EIGHTHS[q - 1] * 81 % 97 == EIGHTHS[q]
  {
  }

  lemma OnlyFirstIsOne(q: nat, r: nat)
    requires q < 12 && r < 8
    ensures EIGHTHS[q] * OCTET[r] % 97 == 1 <==> q == 0 && r == 0
  {
    assert r == 0 || r == 1 || r == 2 || r == 3 || r == 4 || r == 5 || r == 6 || r == 7;
  }

  /** 10 to the power `k` is 1 exactly for the multiples of 96. */
  lemma OrderOfTen(k: nat)
    ensures TenTo(k) == 1 <==> k % 96 == 0
  {
    var m := k % 96;
    var q, r := m / 8, m % 8;
    var last := |EIGHTHS| - 1;
    AtEighth(last);
    TurnsOfTen(8 * last, k / 96, m);
    AtEighth(q);
    AddOctet(8 * q, r);
    OnlyFirstIsOne(q, r);
  }

  /** An exponent that gives 1 is a period. */
  lemma {:induction false} TurnsOfTen(turn: nat, n: nat, m: nat)
    requires TenTo(turn) == 1
    ensures TenTo(turn * n + m) == TenTo(m)
    decreases n
  {
    if n > 0 {
      var before := turn * (n - 1) + m;
      TurnsOfTen(turn, n - 1, m);
      OneTurn(before, turn);
      Distribute(n - 1, 1, turn);
      assert turn * n + m == before + turn;
    }
  }

  lemma OneTurn(a: nat, turn: nat)
    requires TenTo(turn) == 1
    ensures TenTo(a + turn) == TenTo(a)
  {
    TenToAdds(a, turn);
    TenToIsReduced(a);
    TimesOne(TenTo(a), TenTo(turn));
  }

  lemma TimesOne(x: int, y: int)
    requires 0 <= x < 97 && y == 1
    ensures x * y % 97 == x
  {
  }

  // ----- the weight of the first place -----

  /** The weight of a position is 10 to the number of digits behind it. */
  lemma {:induction false} WeightIsTenTo(s: string)
    requires IsIbanText(s)
    ensures Weight(s) % 97 == TenTo(|Expanded(s)|)
  {
    if s != "" {
      WeightIsTenTo(s[1..]);
      TimesRemainder(Base(s[0]), Weight(s[1..]));
      var k := |Expanded(s[1..])|;
      if IsLetter(s[0]) {
        assert TenTo(k + 2) == TenTo(k) * 10 % 97 * 10 % 97;
        RemainderStep(TenTo(k) * 10, 0);
      }
    }
  }

  /** The digits behind the first character, once the IBAN is rearranged and expanded. */
  function DigitsBehindFirst(iban: string): nat
    requires |iban| >= 4
  {
    |Expanded(Rearranged(iban)[1..])|
  }

  lemma {:induction false} ExpandedLength(s: string)
    ensures |s| <= |Expanded(s)| <= 2 * |s|
  {
    if s != "" {
      ExpandedLength(s[1..]);
    }
  }

  lemma MinusOne(a: int)
    ensures (a - 1) % 97 == 0 <==> a % 97 == 1
  {
  }

  /** A small nonzero difference times a number is a multiple of 97 exactly when the number is one. */
  lemma SmallTimes(d: int, m: int)
    requires d != 0 && -25 <= d <= 25
    ensures (d * m) % 97 == 0 <==> m % 97 == 0
  {
    if m % 97 == 0 {
      MultipleTimes(d, m);
    } else if (d * m) % 97 == 0 {
      MultipleTimes(-1, d * m);
      assert -1 * (d * m) == -d * m;
      SmallFactor(if d > 0 then d else -d, m);
    }
  }

  lemma FewDigits(iban: string)
    requires 5 <= |iban| <= 34
    ensures DigitsBehindFirst(iban) % 96 != 0
  {
    ExpandedLength(Rearranged(iban)[1..]);
  }

  /** The swap of the last check digit and the character after it goes unfound exactly when their weights agree. */
  lemma SwapApart(iban: string)
    requires |iban| >= 5 && IsIbanText(iban) && SameKind(iban[3], iban[4]) && iban[3] != iban[4] && IsIban(iban)
    ensures IsIban(Swapped(iban, 3)) <==> DigitsBehindFirst(iban) % 96 == 0
  {
    var b, a := iban[4], iban[3];
    RearrangedText(iban);
    SwappedText(iban, 3);
    RearrangedText(Swapped(iban, 3));
    NumberIsIbanNumber(Rearranged(iban));
    NumberIsIbanNumber(Rearranged(Swapped(iban, 3)));
    var mid := ApartSwap(iban);
    assert Rearranged(iban)[1..] == mid + [a];
    WeightAppend(mid, a);
    var w := Weight(mid + [a]);
    SwapOfEnds(b, mid, a, w);
    WeightIsTenTo(mid + [a]);
    OrderOfTen(DigitsBehindFirst(iban));
    SmallTimes(ValueOf(a) - ValueOf(b), w - 1);
    MinusOne(w);
    Congruent(IbanNumber([a] + mid + [b]), IbanNumber([b] + mid + [a]));
  }

  /**
   A swap of two different neighbours of one kind goes unfound only when the
   rearrangement takes the two apart and the digits behind the first are a multiple of 96.
   In an IBAN of at most 34 characters every such swap is found.
   */
  lemma IbanFindsSwap(iban: string, i: nat)
    requires |iban| >= 4 && IsIbanText(iban) && IsIban(iban)
    requires i + 1 < |iban| && SameKind(iban[i], iban[i + 1]) && iban[i] != iban[i + 1]
    ensures IsIban(Swapped(iban, i)) <==> i == 3 && DigitsBehindFirst(iban) % 96 == 0
    ensures |iban| <= 34 ==> !IsIban(Swapped(iban, i))
  {
    if i == 3 {
      SwapApart(iban);
      if |iban| <= 34 {
        FewDigits(iban);
      }
    } else {
      SwapInsideFound(iban, i);
    }
  }

  // ----- a swap that goes unfound -----

  function Zeros(n: nat): string {
    if n == 0 then "" else ['0'] + Zeros(n - 1)
  }

  lemma {:induction false} ZerosFacts(n: nat)
    ensures |Zeros(n)| == n && IsIbanText(Zeros(n)) && (n > 0 ==> Zeros(n)[n - 1] == '0')
    ensures IbanNumber(Zeros(n)) == 0 && |Expanded(Zeros(n))| == n
  {
    if n > 0 {
      ZerosFacts(n - 1);
      assert Zeros(n)[1..] == Zeros(n - 1);
    }
  }

  lemma {:induction false} ZerosJoin(m: nat, n: nat)
    ensures Zeros(m) + Zeros(n) == Zeros(m + n)
  {
    if m > 0 {
      ZerosJoin(m - 1, n);
      assert Zeros(m) + Zeros(n) == ['0'] + (Zeros(m - 1) + Zeros(n));
    } else {
      assert Zeros(0) + Zeros(n) == Zeros(n);
    }
  }

  lemma OneAndZeros(n: nat)
    requires n % 96 == 0
    ensures Number(Expanded(['1'] + Zeros(n))) % 97 == 1
  {
    ZerosFacts(n);
    IbanNumberSplit(['1'], Zeros(n));
    OneIsOne();
    NumberIsIbanNumber(['1'] + Zeros(n));
    WeightIsTenTo(Zeros(n));
    OrderOfTen(n);
  }

  lemma OneIsOne()
    ensures IbanNumber(['1']) == 1
  {
    assert ['1'][1..] == "";
  }

  /** The text is a one and as many zeros as give it 97 digits: both it and its swap leave the remainder 1. */
  lemma SwapUnfound(n: nat) returns (iban: string)
    requires n % 96 == 0 && n > 4
    ensures |iban| == n + 1 && IsIbanText(iban) && iban[3] == '0' && iban[4] == '1'
    ensures IsIban(iban) && IsIban(Swapped(iban, 3))
  {
    iban := Zeros(4) + ['1'] + Zeros(n - 4);
    ZerosFacts(4);
    ZerosFacts(n - 4);
    ZerosFacts(n);
    ZerosJoin(n - 4, 4);
    assert Rearranged(iban) == ['1'] + Zeros(n);
    assert Rearranged(iban)[1..] == Zeros(n);
    OneAndZeros(n);
    IbanFindsSwap(iban, 3);
  }
}
