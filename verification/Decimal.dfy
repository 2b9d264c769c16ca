/** Python's decimal text for integers: what an f-string prints and what `int`
    reads, white space, signs and underscores included. */
module Decimal {
  import opened Prelude

  const DIGITS := "0123456789"

  function PrintNat(n: nat): string {
    if n < 10 then [DIGITS[n]] else PrintNat(n / 10) + [DIGITS[n % 10]]
  }

  function PrintInt(i: int): string {
    if i < 0 then "-" + PrintNat(-i) else PrintNat(i)
  }

  predicate IsDigit(c: char) {
    '0' <= c <= '9'
  }

  function DigitValue(c: char): nat
    requires IsDigit(c)
  {
    c as int - '0' as int
  }

  predicate IsSpace(c: char) {
    c == ' ' || '\t' <= c <= '\r' || 0x1c <= c as int <= 0x1f
  }

  function StripLeft(s: string): string {
    if s != [] && IsSpace(s[0]) then StripLeft(s[1..]) else s
  }

  function StripRight(s: string): string {
    if s != [] && IsSpace(s[|s| - 1]) then StripRight(s[..|s| - 1]) else s
  }

  function Strip(s: string): string {
    StripRight(StripLeft(s))
  }

  /** Digits with single underscores between them. */
  function ParseNat(s: string): Option<nat> {
    if s == [] || !IsDigit(s[|s| - 1]) then None
    else
      var d := DigitValue(s[|s| - 1]);
      var init := s[..|s| - 1];
      if init == [] then Some(d)
      else
        match ParseNat(if init[|init| - 1] == '_' then init[..|init| - 1] else init)
        case None => None
        case Some(n) => Some(10 * n + d)
  }

  function Negated(n: Option<int>): Option<int> {
    match n
    case None => None
    case Some(i) => Some(-i)
  }

  /** `int(text)`; None for its ValueError. */
  function ParseInt(text: string): Option<int> {
    ParseSigned(Strip(text))
  }

  function ParseSigned(s: string): Option<int> {
    if s != [] && s[0] == '-' then
      Negated(ParseNat(s[1..]))
    else if s != [] && s[0] == '+' then ParseNat(s[1..])
    else ParseNat(s)
  }

  /** Digits and underscores, with a digit at both ends and no two underscores
      side by side. */
  ghost predicate IsNumeral(s: string) {
    && s != [] && IsDigit(s[0]) && IsDigit(s[|s| - 1])
    && (forall i :: 0 <= i < |s| ==> IsDigit(s[i]) || s[i] == '_')
    && (forall i, j :: 0 <= i < j < |s| && j == i + 1 ==> IsDigit(s[i]) || IsDigit(s[j]))
  }

  /** The number its digits write. */
  function Value(s: string): nat {
    if s == [] then 0
    else if IsDigit(s[|s| - 1]) then 10 * Value(s[..|s| - 1]) + DigitValue(s[|s| - 1])
    else Value(s[..|s| - 1])
  }

  /** Exactly the numerals are read, each as its own number. */
  lemma {:induction false} ParseNatIff(s: string)
    ensures ParseNat(s) == if IsNumeral(s) then Some(Value(s)) else None
    decreases |s|
  {
    if s != [] && IsDigit(s[|s| - 1]) && |s| > 1 {
      var init := s[..|s| - 1];
      var rest := if init[|init| - 1] == '_' then init[..|init| - 1] else init;
      ParseNatIff(rest);
      assert Value(init) == Value(rest);
      if IsNumeral(s) {
        assert IsDigit(s[|init| - 1]) || (s[|init| - 1] == '_' && IsDigit(s[|init| - 2]));
        assert IsNumeral(rest);
      }
      if IsNumeral(rest) {
        assert forall i :: 0 <= i < |rest| ==> rest[i] == s[i];
      }
    }
  }

  /** ASCII white space, as `str.isspace` has it. */
  predicate AllSpace(s: string) {
    forall i :: 0 <= i < |s| ==> s[i] as int in {9, 10, 11, 12, 13, 28, 29, 30, 31, 32}
  }

  lemma {:induction false} StripLeftIs(before: string, s: string)
    requires AllSpace(before) && (s != [] ==> !IsSpace(s[0]))
    ensures StripLeft(before + s) == s
  {
    if before == [] {
      assert before + s == s;
    } else {
      assert (before + s)[1..] == before[1..] + s;
      StripLeftIs(before[1..], s);
    }
  }

  lemma {:induction false} StripRightIs(s: string, after: string)
    requires AllSpace(after) && (s != [] ==> !IsSpace(s[|s| - 1]))
    ensures StripRight(s + after) == s
  {
    if after == [] {
      assert s + after == s;
    } else {
      assert (s + after)[..|s + after| - 1] == s + after[..|after| - 1];
      StripRightIs(s, after[..|after| - 1]);
    }
  }

  function Signed(sign: string, n: nat): int {
    if sign == "-" then 0 - n else n
  }

  /** An integer text: white space, a sign or none, a numeral, white space. It is
      read as its number; nothing else is read at all (`OnlyIntegersAreRead`). */
  lemma ReadableText(before: string, sign: string, digits: string, after: string)
    requires AllSpace(before) && AllSpace(after) && IsNumeral(digits) && sign in ["", "+", "-"]
    ensures ParseInt(before + (sign + digits) + after) == Some(Signed(sign, Value(digits)))
  {
    EndsOfNumber(sign, digits);
    StripAround(before, sign + digits, after);
    ParseNatIff(digits);
    ReadsSign(sign, digits);
  }

  lemma EndsOfNumber(sign: string, digits: string)
    requires IsNumeral(digits) && sign in ["", "+", "-"]
    ensures sign + digits != [] && !IsSpace((sign + digits)[0]) && !IsSpace((sign + digits)[|sign + digits| - 1])
    ensures IsDigit(digits[0])
  {
  }

  lemma ReadsSign(sign: string, digits: string)
    requires digits != [] && IsDigit(digits[0]) && sign in ["", "+", "-"]
    ensures ParseSigned(sign + digits) == if sign == "-" then Negated(ParseNat(digits)) else ParseNat(digits)
  {
    if sign == "" {
      assert sign + digits == digits;
    } else {
      assert (sign + digits)[0] == sign[0] && (sign + digits)[1..] == digits;
    }
  }

  lemma StripAround(before: string, s: string, after: string)
    requires AllSpace(before) && AllSpace(after) && s != [] && !IsSpace(s[0]) && !IsSpace(s[|s| - 1])
    ensures Strip(before + s + after) == s
  {
    assert before + s + after == before + (s + after);
    StripLeftIs(before, s + after);
    StripRightIs(s, after);
  }

  lemma {:induction false} StripLeftSplits(s: string) returns (before: string)
    ensures s == before + StripLeft(s) && AllSpace(before)
    ensures StripLeft(s) != [] ==> !IsSpace(StripLeft(s)[0])
  {
    if s != [] && IsSpace(s[0]) {
      var rest := StripLeftSplits(s[1..]);
      before := [s[0]] + rest;
    } else {
      before := [];
    }
  }

  lemma {:induction false} StripRightSplits(s: string) returns (after: string)
    ensures s == StripRight(s) + after && AllSpace(after)
  {
    if s != [] && IsSpace(s[|s| - 1]) {
      var rest := StripRightSplits(s[..|s| - 1]);
      after := rest + [s[|s| - 1]];
    } else {
      after := [];
    }
  }

  /** Whatever is read is an integer text. */
  lemma OnlyIntegersAreRead(text: string) returns (before: string, sign: string, digits: string, after: string)
    requires ParseInt(text).Some?
    ensures text == before + (sign + digits) + after
    ensures AllSpace(before) && AllSpace(after) && IsNumeral(digits) && sign in ["", "+", "-"]
  {
    before := StripLeftSplits(text);
    after := StripRightSplits(StripLeft(text));
    var s := Strip(text);
    sign := if s != [] && (s[0] == '-' || s[0] == '+') then [s[0]] else "";
    digits := s[|sign|..];
    ParseNatIff(digits);
    assert s == sign + digits;
  }

  lemma DigitsAreDigits(d: nat)
    requires d < 10
    ensures IsDigit(DIGITS[d]) && DigitValue(DIGITS[d]) == d
  {
  }

  lemma {:induction false} PrintNatDigits(n: nat)
    ensures PrintNat(n) != []
    ensures forall i :: 0 <= i < |PrintNat(n)| ==> IsDigit(PrintNat(n)[i])
  {
    if n < 10 {
      DigitsAreDigits(n);
    } else {
      PrintNatDigits(n / 10);
      DigitsAreDigits(n % 10);
    }
  }

  lemma {:induction false} ParsePrintNat(n: nat)
    ensures ParseNat(PrintNat(n)) == Some(n)
  {
    if n < 10 {
      DigitsAreDigits(n);
    } else {
      ParsePrintNat(n / 10);
      PrintNatDigits(n / 10);
      DigitsAreDigits(n % 10);
      var s := PrintNat(n);
      assert s[..|s| - 1] == PrintNat(n / 10);
      assert IsDigit(PrintNat(n / 10)[|PrintNat(n / 10)| - 1]);
    }
  }

  lemma PrintedNumeral(i: int) returns (sign: string, digits: string)
    ensures PrintInt(i) == sign + digits && sign in ["", "+", "-"]
    ensures IsNumeral(digits) && Signed(sign, Value(digits)) == i
  {
    sign, digits := if i < 0 then "-" else "", PrintNat(if i < 0 then -i else i);
    ParsePrintNat(if i < 0 then -i else i);
    ParseNatIff(digits);
  }

  lemma ReadableLine(sign: string, digits: string)
    requires IsNumeral(digits) && sign in ["", "+", "-"]
    ensures ParseInt(sign + digits) == Some(Signed(sign, Value(digits)))
    ensures ParseInt(sign + digits + "\n") == Some(Signed(sign, Value(digits)))
  {
    var s := sign + digits;
    assert AllSpace("") && AllSpace("\n");
    assert "" + s + "" == s && "" + s + "\n" == s + "\n";
    ReadableText("", sign, digits, "");
    ReadableText("", sign, digits, "\n");
  }

  /** Printing and reading are inverse, also through a line of a file. */
  lemma ParsePrint(i: int)
    ensures ParseInt(PrintInt(i)) == Some(i)
    ensures ParseInt(PrintInt(i) + "\n") == Some(i)
  {
    var sign, digits := PrintedNumeral(i);
    ReadableLine(sign, digits);
  }

  lemma PrintInjective(i: int, j: int)
    ensures PrintInt(i) == PrintInt(j) <==> i == j
  {
    ParsePrint(i);
    ParsePrint(j);
  }

  /** A printed integer starts with a digit or a minus sign. */
  lemma PrintStart(i: int)
    ensures PrintInt(i) != [] && (IsDigit(PrintInt(i)[0]) || PrintInt(i)[0] == '-')
  {
    PrintNatDigits(if i < 0 then -i else i);
  }
}
