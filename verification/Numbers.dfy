/** Strict integer parsing, for any integral type, given by its least and greatest values. */
module Numbers {
  import opened Basics

  const NO_DIGIT: nat := 36

  /** The value of a digit in the bases up to 36, either case, or `NO_DIGIT`. */
  function DigitValue(c: char): (d: nat)
    ensures d <= NO_DIGIT
  {
    if '0' <= c <= '9' then c as int - '0' as int
    else if 'a' <= c <= 'z' then c as int - 'a' as int + 10
    else if 'A' <= c <= 'Z' then c as int - 'A' as int + 10
    else NO_DIGIT
  }

  predicate IsDigit(c: char, base: nat) { DigitValue(c) < base <= 36 }

  // ----- The code: std::from_chars() and its caller -----

  /** Where the run of digits that starts at `i` ends. */
  function DigitsEnd(text: string, i: nat, base: nat): (end: nat)
    requires i <= |text|
    ensures i <= end <= |text|
    decreases |text| - i
  {
    if i < |text| && IsDigit(text[i], base) then DigitsEnd(text, i + 1, base) else i
  }

  /** The magnitude of a run of digits, most significant first. */
  function Magnitude(acc: nat, digits: string, base: nat): nat
    decreases |digits|
  {
    if digits == [] then acc else Magnitude(acc * base + DigitValue(digits[0]), digits[1..], base)
  }

  /** What std::from_chars() reports: where it stopped, and the value unless it failed. */
  datatype Scanned = Scanned(end: nat, value: Option<int>)

  /** Only a signed type takes a '-' sign; a value outside [lo, hi] is an error. */
  function FromChars(text: string, base: nat, lo: int, hi: int): Scanned {
    var negative := lo < 0 && |text| > 0 && text[0] == '-';
    var start := if negative then 1 else 0;
    var end := DigitsEnd(text, start, base);
    if end == start then Scanned(0, None)
    else
      var m: int := Magnitude(0, text[start..end], base);
      var v := if negative then -m else m;
      Scanned(end, if lo <= v <= hi then Some(v) else None)
  }

  function ParseNumber(text: string, base: int, lo: int, hi: int): Option<int> {
    if text == "" || base < 2 || base > 36 then None
    else
      var scanned := FromChars(text, base, lo, hi);
      if scanned.value.None? || scanned.end != |text| then None else scanned.value
  }

  // ----- What a numeral is and means -----

  predicate AllDigits(text: string, base: nat) {
    forall i :: 0 <= i < |text| ==> IsDigit(text[i], base)
  }

  /** The value of a digit string: each digit weighs a power of the base. */
  function Value(digits: string, base: nat): nat {
    if digits == [] then 0 else Value(digits[..|digits| - 1], base) * base + DigitValue(digits[|digits| - 1])
  }

  function Unsigned(text: string, allowSign: bool): string {
    if allowSign && |text| > 0 && text[0] == '-' then text[1..] else text
  }

  predicate IsNumeral(text: string, base: nat, allowSign: bool) {
    Unsigned(text, allowSign) != "" && AllDigits(Unsigned(text, allowSign), base)
  }

  function Meaning(text: string, base: nat, allowSign: bool): int {
    var v: int := Value(Unsigned(text, allowSign), base);
    if Unsigned(text, allowSign) == text then v else -v
  }

  // ----- Proofs -----

  lemma {:induction false} MagnitudeAppend(acc: nat, digits: string, c: char, base: nat)
    ensures Magnitude(acc, digits + [c], base) == Magnitude(acc, digits, base) * base + DigitValue(c)
    decreases |digits|
  {
    if digits == [] {
    } else {
      assert (digits + [c])[1..] == digits[1..] + [c];
      MagnitudeAppend(acc * base + DigitValue(digits[0]), digits[1..], c, base);
    }
  }

  lemma {:induction false} MagnitudeIsValue(digits: string, base: nat)
    ensures Magnitude(0, digits, base) == Value(digits, base)
  {
    if digits == [] {
    } else {
      var last := |digits| - 1;
      assert digits == digits[..last] + [digits[last]];
      MagnitudeIsValue(digits[..last], base);
      MagnitudeAppend(0, digits[..last], digits[last], base);
    }
  }

  /** The run covers the text exactly when every character is a digit. */
  lemma {:induction false} DigitsEndIsAll(text: string, i: nat, base: nat)
    requires i <= |text|
    ensures DigitsEnd(text, i, base) == |text| <==> AllDigits(text[i..], base)
    decreases |text| - i
  {
    if i == |text| {
    } else {
      DigitsEndIsAll(text, i + 1, base);
      assert text[i..] == [text[i]] + text[i + 1..];
      if AllDigits(text[i..], base) {
        assert IsDigit(text[i..][0], base);
        var rest := text[i + 1..];
        forall k | 0 <= k < |rest|
          ensures IsDigit(rest[k], base)
        {
          assert rest[k] == text[i..][k + 1];
        }
      }
    }
  }

  /** parseNumber() accepts exactly the nonempty digit strings in the base, signed only for a
      signed type, whose value fits, and returns that value. */
  lemma ParsesExactlyNumerals(text: string, base: int, lo: int, hi: int, v: int)
    requires lo <= 0 <= hi
    ensures ParseNumber(text, base, lo, hi) == Some(v) <==>
      && 2 <= base <= 36 && IsNumeral(text, base, lo < 0)
      && v == Meaning(text, base, lo < 0) && lo <= v <= hi
  {
    if text != "" && 2 <= base <= 36 {
      var digits := Unsigned(text, lo < 0);
      var start := |text| - |digits|;
      assert text[start..] == digits && text[start..|text|] == digits;
      DigitsEndIsAll(text, start, base);
      MagnitudeIsValue(digits, base);
      assert start == 0 || digits != text;
    }
  }

  /** What digits mean: they count up by one in each of their three ranges, which begin and end here, and
      no other character is a digit. */
  lemma DigitsMean(c: char)
    ensures DigitValue('0') == 0 && DigitValue('9') == 9
    ensures DigitValue('a') == DigitValue('A') == 10 && DigitValue('z') == DigitValue('Z') == 35
    ensures '0' <= c < '9' || 'a' <= c < 'z' || 'A' <= c < 'Z' ==> DigitValue(c + 1 as char) == DigitValue(c) + 1
    ensures c < '0' || '9' < c < 'A' || 'Z' < c < 'a' || 'z' < c ==> DigitValue(c) == NO_DIGIT
  {
  }

  // ----- Printing -----

  function DigitChar(d: nat): (c: char)
    requires d < 36
    ensures DigitValue(c) == d
  {
    if d < 10 then '0' + d as char else 'a' + (d - 10) as char
  }

  function PrintNat(v: nat, base: nat): (s: string)
    requires 2 <= base <= 36
    ensures s != ""
    decreases v
  {
    if v < base then [DigitChar(v)]
    else
      QuotientIsLess(v, base);
      PrintNat(v / base, base) + [DigitChar(v % base)]
  }

  lemma QuotientIsLess(v: nat, base: nat)
    requires 2 <= base <= v
    ensures 0 <= v / base < v && v % base < base && v == v / base * base + v % base
  {
    var q := v / base;
    assert v == base * q + v % base;
    Times(q, 1, base);
    assert q * base == base * q;
  }

  lemma ValueAppend(s: string, c: char, base: nat)
    ensures Value(s + [c], base) == Value(s, base) * base + DigitValue(c)
  {
    assert (s + [c])[..|s|] == s;
  }

  /** A printed number is a digit string whose value is the number. */
  lemma {:induction false} PrintedValue(v: nat, base: nat)
    requires 2 <= base <= 36
    ensures AllDigits(PrintNat(v, base), base) && Value(PrintNat(v, base), base) == v
    decreases v, 1
  {
    if v < base {
      OneMoreDigit("", 0, v, base);
      assert "" + [DigitChar(v)] == PrintNat(v, base);
    } else {
      PrintedMore(v, base);
    }
  }

  lemma {:induction false} PrintedMore(v: nat, base: nat)
    requires 2 <= base <= 36 && base <= v
    ensures AllDigits(PrintNat(v, base), base) && Value(PrintNat(v, base), base) == v
    decreases v, 0
  {
    QuotientIsLess(v, base);
    var q, d := v / base, v % base;
    PrintedValue(q, base);
    OneMoreDigit(PrintNat(q, base), q, d, base);
    assert PrintNat(v, base) == PrintNat(q, base) + [DigitChar(d)];
  }

  lemma OneMoreDigit(s: string, v: nat, d: nat, base: nat)
    requires d < base <= 36 && AllDigits(s, base) && Value(s, base) == v
    ensures AllDigits(s + [DigitChar(d)], base) && Value(s + [DigitChar(d)], base) == v * base + d
  {
    ValueAppend(s, DigitChar(d), base);
  }

  /** std::to_string(), in any base. */
  function Print(v: int, base: nat): string
    requires 2 <= base <= 36
  {
    if v < 0 then ['-'] + PrintNat(-v, base) else PrintNat(v, base)
  }

  /** Every value of the type parses back from its printed form. */
  lemma PrintThenParse(v: int, base: nat, lo: int, hi: int)
    requires 2 <= base <= 36 && lo <= 0 <= hi && lo <= v <= hi
    ensures ParseNumber(Print(v, base), base, lo, hi) == Some(v)
  {
    var text := Print(v, base);
    PrintedValue(if v < 0 then -v else v, base);
    if v < 0 {
      assert text[1..] == PrintNat(-v, base);
    } else {
      assert IsDigit(text[0], base);
    }
    ParsesExactlyNumerals(text, base, lo, hi, v);
  }
}
