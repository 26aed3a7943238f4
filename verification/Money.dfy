/** Rupee amounts typed and shown by the field app: parsing, printing, and their round trip. */
module Money {
  import opened Basics
  import opened Text

  /** `Number.MAX_SAFE_INTEGER` */
  const MAX_SAFE_INTEGER := 9007199254740991

  /** Rupee signs, commas and whitespace are dropped wherever they stand. */
  predicate IsNoise(c: char) {
    c as int == 0x20B9 || c == ',' || IsSpace(c)
  }

  lemma NoiseIs(c: char)
    ensures IsNoise(c) <==> c as int in WHITE_SPACE + {0x20B9, 0x2C}
  {
    SpacesAre(c);
  }

  predicate IsDigit(c: char) {
    '0' <= c <= '9'
  }

  predicate AllDigits(s: string) {
    forall c :: c in s ==> IsDigit(c)
  }

  function Cleaned(input: string): string {
    Filter(input, (c: char) => !IsNoise(c))
  }

  function DotIndex(s: string): nat {
    FirstIndex(s, (c: char) => c == '.')
  }

  /** `/^\d+(\.\d{0,2})?$/` */
  predicate IsAmount(s: string) {
    var d := DotIndex(s);
    && d >= 1 && AllDigits(s[..d])
    && (d < |s| ==> |s| - d - 1 <= 2 && AllDigits(s[d + 1..]))
  }

  function DigitValue(c: char): int {
    c as int - '0' as int
  }

  /** `Number` of a string of digits. */
  function ParseDigits(s: string): int {
    if s == "" then 0 else ParseDigits(s[..|s| - 1]) * 10 + DigitValue(s[|s| - 1])
  }

  function PadEnd2(s: string): string
    decreases 2 - |s|
  {
    if |s| >= 2 then s else PadEnd2(s + "0")
  }

  function RupeesToMinor(input: string): Option<int> {
    var cleaned := Cleaned(input);
    if cleaned == "" || !IsAmount(cleaned) then None
    else
      var d := DotIndex(cleaned);
      var frac := if d < |cleaned| then cleaned[d + 1..] else "";
      var paise := ParseDigits(cleaned[..d]) * 100 + ParseDigits(PadEnd2(frac));
      if -MAX_SAFE_INTEGER <= paise <= MAX_SAFE_INTEGER then Some(paise) else None
  }

  function Digit(n: int): char
    requires 0 <= n < 10
  {
    ('0' as int + n) as char
  }

  /** `String` of a non-negative integer. */
  function Decimal(n: nat): (s: string)
    ensures s != "" && AllDigits(s)
  {
    if n < 10 then [Digit(n)] else Decimal(n / 10) + [Digit(n % 10)]
  }

  function PadStart2(s: string): string
    decreases 2 - |s|
  {
    if |s| >= 2 then s else PadStart2("0" + s)
  }

  function Abs(n: int): nat {
    if n < 0 then -n else n
  }

  function MinorToRupeesInput(minor: int): string {
    var whole, paise := Abs(minor) / 100, Abs(minor) % 100;
    if paise == 0 then Decimal(whole) else Decimal(whole) + "." + PadStart2(Decimal(paise))
  }

  // ---------------------------------------------------------------- round trip

  lemma {:induction false} ParseDecimal(n: nat)
    ensures ParseDigits(Decimal(n)) == n
  {
    if n >= 10 {
      ParseDecimal(n / 10);
      assert Decimal(n)[..|Decimal(n)| - 1] == Decimal(n / 10);
    } else {
      assert Decimal(n)[..0] == "";
    }
  }

  lemma TwoDigits(paise: nat)
    requires paise < 100
    ensures var s := PadStart2(Decimal(paise));
            |s| == 2 && AllDigits(s) && ParseDigits(s) == paise && PadEnd2(s) == s
  {
    ParseDecimal(paise);
    var s := PadStart2(Decimal(paise));
    if paise < 10 {
      assert PadStart2("0" + Decimal(paise)) == "0" + Decimal(paise);
      assert s == "0" + [Digit(paise)];
      assert s[..1] == "0" && "0"[..0] == "";
    } else {
      assert Decimal(paise) == [Digit(paise / 10)] + [Digit(paise % 10)];
    }
  }

  lemma FirstDot(whole: string, tail: string)
    requires AllDigits(whole)
    ensures DotIndex(whole) == |whole|
    ensures DotIndex(whole + "." + tail) == |whole|
  {
    var s := whole + "." + tail;
    forall i | 0 <= i < |whole| ensures s[i] == whole[i] && whole[i] != '.' {
      assert whole[i] in whole;
    }
    assert s[|whole|] == '.';
  }

  lemma {:induction false} NothingToClean(s: string)
    requires forall c :: c in s ==> !IsNoise(c)
    ensures Cleaned(s) == s
  {
    if s != "" {
      assert s == s[..|s| - 1] + [s[|s| - 1]];
      NothingToClean(s[..|s| - 1]);
    }
  }

  /** `noisy` is `text` with noise inserted anywhere. */
  ghost predicate Noised(text: string, noisy: string) {
    if noisy == "" then text == ""
    else
      var c := noisy[|noisy| - 1];
      || (IsNoise(c) && Noised(text, noisy[..|noisy| - 1]))
      || (text != "" && text[|text| - 1] == c && Noised(text[..|text| - 1], noisy[..|noisy| - 1]))
  }

  lemma {:induction false} NoiseIsCleaned(text: string, noisy: string)
    requires Noised(text, noisy) && forall c :: c in text ==> !IsNoise(c)
    ensures Cleaned(noisy) == text
  {
    if noisy != "" {
      var c := noisy[|noisy| - 1];
      if IsNoise(c) && Noised(text, noisy[..|noisy| - 1]) {
        NoiseIsCleaned(text, noisy[..|noisy| - 1]);
      } else {
        assert c in text;
        NoiseIsCleaned(text[..|text| - 1], noisy[..|noisy| - 1]);
        assert text == text[..|text| - 1] + [c];
      }
    }
  }

  lemma PrintedIsClean(n: int)
    ensures forall c :: c in MinorToRupeesInput(n) ==> !IsNoise(c)
  {
    TwoDigits(Abs(n) % 100);
    var tail := PadStart2(Decimal(Abs(n) % 100));
    assert forall c :: c in Decimal(Abs(n) / 100) ==> IsDigit(c);
    assert forall c :: c in tail ==> IsDigit(c);
    assert forall c :: IsDigit(c) || c == '.' ==> !IsNoise(c);
  }

  lemma PrintedIsWritten(n: int)
    ensures var whole, paise := Abs(n) / 100, Abs(n) % 100;
            var frac := if paise == 0 then "" else PadStart2(Decimal(paise));
            Written(MinorToRupeesInput(n), Decimal(whole), frac) && Paise(frac) == paise
  {
    hide ParseDigits;
    hide PadEnd2;
    var s := PadStart2(Decimal(Abs(n) % 100));
    TwoDigits(Abs(n) % 100);
    TwoDigitsRead(s[0], s[1]);
    assert s == [s[0], s[1]];
  }

  lemma ParsePrinted(n: int, noisy: string)
    requires Cleaned(noisy) == MinorToRupeesInput(n)
    ensures RupeesToMinor(noisy) == if Abs(n) <= MAX_SAFE_INTEGER then Some(Abs(n)) else None
  {
    hide RupeesToMinor;
    hide MinorToRupeesInput;
    hide Paise;
    hide Written;
    PrintedIsWritten(n);
    ParseDecimal(Abs(n) / 100);
    ReadsAs(noisy, Decimal(Abs(n) / 100), if Abs(n) % 100 == 0 then "" else PadStart2(Decimal(Abs(n) % 100)));
  }

  /** What is printed is read back, with rupee signs, commas and whitespace inserted anywhere. */
  lemma MoneyRoundTrip(n: int, noisy: string)
    requires 0 <= n <= MAX_SAFE_INTEGER && Noised(MinorToRupeesInput(n), noisy)
    ensures RupeesToMinor(noisy) == Some(n)
  {
    PrintedIsClean(n);
    NoiseIsCleaned(MinorToRupeesInput(n), noisy);
    ParsePrinted(n, noisy);
  }

  /** Printing forgets the sign, so the printer is inverted exactly on the amounts the parser can return. */
  lemma MoneyRoundTripIff(n: int)
    ensures RupeesToMinor(MinorToRupeesInput(n)) == Some(n) <==> 0 <= n <= MAX_SAFE_INTEGER
  {
    PrintedIsClean(n);
    NothingToClean(MinorToRupeesInput(n));
    ParsePrinted(n, MinorToRupeesInput(n));
  }

  /** Rupees in digits, and paise in at most two after a dot, if there is one. */
  ghost predicate Written(text: string, whole: string, frac: string) {
    && whole != "" && AllDigits(whole) && AllDigits(frac) && |frac| <= 2
    && (text == whole + "." + frac || (text == whole && frac == ""))
  }

  /** One digit after the dot counts tens of paise. */
  function Paise(frac: string): int
    requires |frac| <= 2
  {
    match |frac|
    case 0 => 0
    case 1 => 10 * DigitValue(frac[0])
    case _ => 10 * DigitValue(frac[0]) + DigitValue(frac[1])
  }

  lemma TwoDigitsRead(a: char, b: char)
    ensures ParseDigits([a, b]) == 10 * DigitValue(a) + DigitValue(b)
  {
    assert [a, b][..1] == [a] && [a][..0] == "";
    assert ParseDigits([a]) == DigitValue(a);
  }

  lemma PaddedTo2(frac: string)
    requires |frac| <= 2
    ensures PadEnd2(frac) == match |frac| case 0 => "00" case 1 => [frac[0], '0'] case _ => [frac[0], frac[1]]
  {
    if |frac| == 0 {
      assert frac + "0" == "0";
      assert PadEnd2("0") == "0" + "0";
    } else if |frac| == 1 {
      assert PadEnd2(frac + "0") == frac + "0";
    }
  }

  lemma PaddedPaise(frac: string)
    requires |frac| <= 2
    ensures ParseDigits(PadEnd2(frac)) == Paise(frac)
  {
    hide PadEnd2;
    hide ParseDigits;
    var padded := PadEnd2(frac);
    PaddedTo2(frac);
    TwoDigitsRead(padded[0], padded[1]);
    assert padded == [padded[0], padded[1]];
  }

  /** An amount as written reads as its paise, if that many can be counted exactly. */
  lemma ReadsAs(input: string, whole: string, frac: string)
    requires Written(Cleaned(input), whole, frac)
    ensures var paise := ParseDigits(whole) * 100 + Paise(frac);
            RupeesToMinor(input) == if paise <= MAX_SAFE_INTEGER then Some(paise) else None
  {
    var text := Cleaned(input);
    FirstDot(whole, frac);
    PaddedPaise(frac);
    PaddedDigits(frac);
    ParseIsNatural(whole);
    ParseIsNatural(PadEnd2(frac));
    if text == whole {
      assert text[..|text|] == whole;
    } else {
      assert text[..|whole|] == whole && text[|whole| + 1..] == frac;
    }
  }

  /** And nothing else is accepted. */
  lemma AcceptedIff(input: string)
    ensures RupeesToMinor(input).Some?
            <==> exists whole, frac :: Written(Cleaned(input), whole, frac)
                                       && ParseDigits(whole) * 100 + Paise(frac) <= MAX_SAFE_INTEGER
  {
    var text := Cleaned(input);
    if RupeesToMinor(input).Some? {
      var d := DotIndex(text);
      var whole, frac := text[..d], if d < |text| then text[d + 1..] else "";
      assert d < |text| ==> text == whole + "." + frac;
      assert Written(text, whole, frac);
      ReadsAs(input, whole, frac);
    }
    if whole, frac :| Written(text, whole, frac) && ParseDigits(whole) * 100 + Paise(frac) <= MAX_SAFE_INTEGER {
      ReadsAs(input, whole, frac);
    }
  }

  lemma {:induction false} ParseIsNatural(s: string)
    requires AllDigits(s)
    ensures ParseDigits(s) >= 0
  {
    if s != "" {
      assert s[|s| - 1] in s;
      ParseIsNatural(s[..|s| - 1]);
    }
  }

  /** Whatever the technician typed, if it was accepted, showing it and reading it again changes nothing. */
  lemma AcceptedInputIsStable(input: string)
    requires RupeesToMinor(input).Some?
    ensures var n := RupeesToMinor(input).value;
            0 <= n <= MAX_SAFE_INTEGER && RupeesToMinor(MinorToRupeesInput(n)) == Some(n)
  {
    var cleaned := Cleaned(input);
    var d := DotIndex(cleaned);
    var frac := if d < |cleaned| then cleaned[d + 1..] else "";
    ParseIsNatural(cleaned[..d]);
    PaddedDigits(frac);
    ParseIsNatural(PadEnd2(frac));
    MoneyRoundTripIff(RupeesToMinor(input).value);
  }

  lemma PaddedDigits(s: string)
    requires AllDigits(s)
    ensures AllDigits(PadEnd2(s))
    decreases 2 - |s|
  {
    if |s| < 2 {
      PaddedDigits(s + "0");
    }
  }
}
