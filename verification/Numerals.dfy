/**
 Numbers as text: what Go's `strconv.ParseInt` and `strconv.ParseFloat` take for one, and what
 SQLite takes for a numeric literal. Both follow the grammars of their manuals: the Go
 specification's floating-point literals, with signs and the special words that `ParseFloat`
 adds, and the numeric literals of SQLite 3.46 and later, signs being part of the expression.
 */
module Numerals {
  import opened Wrappers

  predicate IsDigit(ch: char, hex: bool) {
    '0' <= ch <= '9' || (hex && ('a' <= ch <= 'f' || 'A' <= ch <= 'F'))
  }

  /** What follows the longest run of digits, in which single underscores may separate digits. */
  function SkipDigits(s: string, hex: bool): (r: string)
    ensures |r| <= |s|
  {
    if s == "" || !IsDigit(s[0], hex) then s
    else if |s| > 2 && s[1] == '_' && IsDigit(s[2], hex) then SkipDigits(s[2..], hex)
    else SkipDigits(s[1..], hex)
  }

  /** Digits to the end, at least one. */
  predicate Digits(s: string, hex: bool) {
    s != "" && SkipDigits(s, hex) == ""
  }

  function Unsigned(s: string): string {
    if s != "" && s[0] in {'+', '-'} then s[1..] else s
  }

  /** Lower case of the ASCII letters, which is all that both parsers compare. */
  function Lower(ch: char): char {
    if 'A' <= ch <= 'Z' then ch - 'A' + 'a' else ch
  }

  predicate IsWord(s: string, word: string) {
    |s| == |word| && forall i :: 0 <= i < |s| ==> Lower(s[i]) == word[i]
  }

  /** What follows the digits and the point of a number; at least one digit is needed. */
  function SkipMantissa(s: string, hex: bool): (r: Option<string>)
    ensures r.Some? ==> |r.value| < |s|
  {
    var r := SkipDigits(s, hex);
    if r != "" && r[0] == '.' then
      var r' := SkipDigits(r[1..], hex);
      if |r| < |s| || |r'| < |r[1..]| then Some(r') else None
    else if |r| < |s| then Some(r)
    else None
  }

  predicate Exponent(s: string, mark: char) {
    s != "" && Lower(s[0]) == mark && Digits(Unsigned(s[1..]), false)
  }

  /** A decimal number without its sign; Go and SQLite agree on these. */
  predicate Decimal(s: string) {
    var r := SkipMantissa(s, false);
    r.Some? && (r.value == "" || Exponent(r.value, 'e'))
  }

  predicate HexPrefix(s: string) {
    |s| > 2 && s[0] == '0' && Lower(s[1]) == 'x'
  }

  /** A hexadecimal number of Go: with an exponent, which is marked by a p. */
  predicate HexFloat(s: string) {
    && HexPrefix(s)
    && var r := SkipMantissa(if |s| > 3 && s[2] == '_' && IsDigit(s[3], true) then s[3..] else s[2..], true);
       r.Some? && Exponent(r.value, 'p')
  }

  /** A hexadecimal number of SQLite: an integer. */
  predicate HexInteger(s: string) {
    HexPrefix(s) && Digits(s[2..], true)
  }

  /** The words that `ParseFloat` knows. */
  predicate Special(s: string) {
    IsWord(Unsigned(s), "inf") || IsWord(Unsigned(s), "infinity") || IsWord(s, "nan")
  }

  /** The texts of which `ParseInt` with base 10 accepts those that fit into 64 bits. */
  predicate GoWhole(s: string) {
    Unsigned(s) != "" && forall i :: 0 <= i < |Unsigned(s)| ==> IsDigit(Unsigned(s)[i], false)
  }

  /** The texts of which `ParseFloat` accepts those that are not out of range. */
  predicate GoFloat(s: string) {
    Special(s) || Decimal(Unsigned(s)) || HexFloat(Unsigned(s))
  }

  predicate SqlNumber(s: string) {
    Decimal(Unsigned(s)) || HexInteger(Unsigned(s))
  }

  /** After a zero, no x can follow in a decimal number. */
  lemma PrefixIsNotDecimal(s: string)
    requires HexPrefix(s)
    ensures !Decimal(s)
  {
    assert !IsDigit(s[1], false);
    assert SkipDigits(s, false) == s[1..];
  }

  /** Decimal numbers cannot start with a letter. */
  lemma DecimalStart(s: string)
    requires Decimal(s)
    ensures !HexPrefix(s)
    ensures IsDigit(s[0], false) || s[0] == '.'
  {
    if HexPrefix(s) {
      PrefixIsNotDecimal(s);
    }
  }

  lemma SpecialStart(s: string)
    requires Special(s)
    ensures Unsigned(s) != "" && Lower(Unsigned(s)[0]) in {'i', 'n'}
  {
    assert Lower('n') == 'n';
    if IsWord(s, "nan") {
      assert Lower(s[0]) == 'n';
    }
  }

  lemma HexFloatIsNoInteger(s: string)
    requires HexFloat(s)
    ensures !HexInteger(s)
  {
    if s[2] == '_' {
      assert SkipDigits(s[2..], true) == s[2..];
    }
  }

  /** Of what Go takes for a float, SQLite takes all but the special words and hexadecimal floats. */
  lemma SqlTakesDecimals(s: string)
    requires GoFloat(s)
    ensures SqlNumber(s) <==> !Special(s) && !HexFloat(Unsigned(s))
  {
    var u := Unsigned(s);
    if Special(s) {
      SpecialStart(s);
      if Decimal(u) { DecimalStart(u); }
    } else if HexFloat(u) {
      HexFloatIsNoInteger(u);
      if Decimal(u) { DecimalStart(u); }
    }
  }

  lemma {:induction false} DigitsSkipped(s: string)
    requires forall i :: 0 <= i < |s| ==> IsDigit(s[i], false)
    ensures SkipDigits(s, false) == ""
  {
    if s != "" {
      assert IsDigit(s[0], false);
      assert |s| > 2 ==> IsDigit(s[1], false);
      DigitsSkipped(s[1..]);
    }
  }

  /** Every whole number is a decimal number to both. */
  lemma WholeIsDecimal(s: string)
    requires GoWhole(s)
    ensures Decimal(Unsigned(s))
  {
    DigitsSkipped(Unsigned(s));
  }

  // ---------------------------------------------------------------- the characters of numbers

  predicate NumeralChar(ch: char) {
    '0' <= ch <= '9' || 'a' <= ch <= 'z' || 'A' <= ch <= 'Z' || ch in "+-._"
  }

  predicate AllNumeral(s: string) {
    forall i :: 0 <= i < |s| ==> NumeralChar(s[i])
  }

  lemma AllNumeralCons(s: string, k: nat)
    requires k <= |s| && AllNumeral(s[..k]) && AllNumeral(s[k..])
    ensures AllNumeral(s)
  {
    assert s == s[..k] + s[k..];
  }

  lemma {:induction false} SkippedDigits(s: string, hex: bool)
    requires AllNumeral(SkipDigits(s, hex))
    ensures AllNumeral(s)
  {
    if s != "" && IsDigit(s[0], hex) {
      var k := if |s| > 2 && s[1] == '_' && IsDigit(s[2], hex) then 2 else 1;
      SkippedDigits(s[k..], hex);
      AllNumeralCons(s, k);
    }
  }

  lemma SkippedMantissa(s: string, hex: bool)
    requires var r := SkipMantissa(s, hex); r.Some? && AllNumeral(r.value)
    ensures AllNumeral(s)
  {
    var r := SkipDigits(s, hex);
    if r != "" && r[0] == '.' {
      SkippedDigits(r[1..], hex);
      AllNumeralCons(r, 1);
    }
    SkippedDigits(s, hex);
  }

  lemma UnsignedChars(s: string)
    requires AllNumeral(Unsigned(s))
    ensures AllNumeral(s)
  {
    if s != "" && s[0] in {'+', '-'} {
      AllNumeralCons(s, 1);
    }
  }

  lemma ExponentChars(s: string, mark: char)
    requires Exponent(s, mark) && 'a' <= mark <= 'z'
    ensures AllNumeral(s)
  {
    SkippedDigits(Unsigned(s[1..]), false);
    UnsignedChars(s[1..]);
    AllNumeralCons(s, 1);
  }

  lemma DecimalChars(s: string)
    requires Decimal(s)
    ensures AllNumeral(s)
  {
    var r := SkipMantissa(s, false).value;
    if r != "" { ExponentChars(r, 'e'); }
    SkippedMantissa(s, false);
  }

  lemma HexDigitsChars(s: string)
    requires var r := SkipMantissa(s, true); r.Some? && Exponent(r.value, 'p')
    ensures AllNumeral(s)
  {
    ExponentChars(SkipMantissa(s, true).value, 'p');
    SkippedMantissa(s, true);
  }

  lemma HexPrefixChars(s: string, k: nat)
    requires HexPrefix(s) && (k == 2 || (k == 3 && s[2] == '_')) && k <= |s|
    ensures AllNumeral(s[..k])
  {
  }

  lemma HexFloatChars(s: string)
    requires HexFloat(s)
    ensures AllNumeral(s)
  {
    var k := if |s| > 3 && s[2] == '_' && IsDigit(s[3], true) then 3 else 2;
    HexDigitsChars(s[k..]);
    HexPrefixChars(s, k);
    AllNumeralCons(s, k);
  }

  lemma WordChars(s: string, word: string)
    requires IsWord(s, word) && forall i :: 0 <= i < |word| ==> 'a' <= word[i] <= 'z'
    ensures AllNumeral(s)
  {
    forall i | 0 <= i < |s| ensures NumeralChar(s[i]) {
      assert Lower(s[i]) == word[i];
    }
  }

  lemma SpecialChars(s: string)
    requires Special(s)
    ensures AllNumeral(s)
  {
    if IsWord(s, "nan") { WordChars(s, "nan"); }
    if IsWord(Unsigned(s), "inf") { WordChars(Unsigned(s), "inf"); UnsignedChars(s); }
    if IsWord(Unsigned(s), "infinity") { WordChars(Unsigned(s), "infinity"); UnsignedChars(s); }
  }

  /** A number is one token for the reader: digits, letters and the characters of signs, points and separators. */
  lemma GoFloatChars(s: string)
    requires GoFloat(s)
    ensures s != "" && AllNumeral(s)
  {
    var u := Unsigned(s);
    if Special(s) {
      SpecialChars(s);
    } else if Decimal(u) {
      DecimalChars(u);
      UnsignedChars(s);
    } else {
      HexFloatChars(u);
      UnsignedChars(s);
    }
  }
}
