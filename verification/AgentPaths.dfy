/** The folder name that Claude Code gives a workspace: its path made safe, and for a long
    path a hash in base 36. */
module AgentPaths {

  // ---- UTF-16 ----

  /** The UTF-16 code units of a text. */
  function Units(text: string): seq<nat> {
    if text == "" then []
    else
      var c := text[0] as int;
      (if c < 0x10000 then [c] else [0xD800 + (c - 0x10000) / 0x400, 0xDC00 + (c - 0x10000) % 0x400]) + Units(text[1..])
  }

  /** Characters are encoded one by one, a character beyond the basic plane as a high and a low
      surrogate that together give it back. */
  lemma {:induction false} UnitsAreUtf16(a: string, b: string, c: char)
    ensures Units(a + b) == Units(a) + Units(b)
    ensures var units := Units([c]); var code := c as int;
            if code < 0x10000 then units == [code]
            else
              && |units| == 2 && 0xD800 <= units[0] < 0xDC00 <= units[1] < 0xE000
              && 0x10000 + (units[0] - 0xD800) * 0x400 + (units[1] - 0xDC00) == code
  {
    assert [c][1..] == [];
    if a == [] {
      assert a + b == b;
    } else {
      assert (a + b)[1..] == a[1..] + b;
      UnitsAreUtf16(a[1..], b, c);
    }
  }

  // ---- the hash ----

  const WORD: nat := 0x1_0000_0000

  function Pow(b: nat, e: nat): nat {
    if e == 0 then 1 else b * Pow(b, e - 1)
  }

  /** The polynomial in 31 whose coefficients are the code units. */
  function Polynomial(units: seq<nat>): nat {
    if units == [] then 0 else Pow(31, |units| - 1) * units[0] + Polynomial(units[1..])
  }

  /** A word read as a signed 32-bit number. */
  function AsInt32(word: int): int { if word >= 0x8000_0000 then word - WORD else word }

  function Horner(units: seq<nat>): nat {
    if units == [] then 0 else Horner(units[..|units| - 1]) * 31 + units[|units| - 1]
  }

  lemma {:induction false} PolynomialAppend(units: seq<nat>, u: nat)
    ensures Polynomial(units + [u]) == Polynomial(units) * 31 + u
  {
    if units == [] {
      assert [] + [u] == [u] && [u][1..] == [];
      assert Pow(31, 0) == 1;
    } else {
      var n := |units|;
      assert (units + [u])[1..] == units[1..] + [u];
      PolynomialAppend(units[1..], u);
      Distribute(Pow(31, n - 1), units[0], Polynomial(units[1..]));
    }
  }

  lemma Distribute(p: nat, a: nat, b: nat)
    ensures 31 * p * a + b * 31 == (p * a + b) * 31
  {
  }

  lemma {:induction false} HornerIsPolynomial(units: seq<nat>)
    ensures Horner(units) == Polynomial(units)
  {
    if units != [] {
      var front, last := units[..|units| - 1], units[|units| - 1];
      HornerIsPolynomial(front);
      PolynomialAppend(front, last);
      assert units == front + [last];
    }
  }

  lemma MaskedStep(a: nat, b: nat, u: nat)
    requires b == a % WORD
    ensures (b * 31 + u) % WORD == (a * 31 + u) % WORD
  {
  }

  lemma AsInt32IsCongruent(p: nat)
    ensures var hash := AsInt32(p % WORD); -0x8000_0000 <= hash < 0x8000_0000 && (hash - p) % 0x1_0000_0000 == 0
  {
    var q := p / WORD;
    assert p == q * WORD + p % WORD;
    SubtractWords(p % WORD, p, q);
    if p % WORD >= 0x8000_0000 { SubtractWords(p % WORD - WORD, p, q + 1); }
  }

  lemma SubtractWords(h: int, p: nat, q: int)
    requires h == p - q * WORD
    ensures (h - p) % 0x1_0000_0000 == 0
  {
    assert h - p == (0 - q) * 0x1_0000_0000;
  }

  /** Masking at every step gives the polynomial modulo the word size, read as an int32. */
  method JavaStringHash(text: string) returns (hash: int)
    ensures hash == AsInt32(Polynomial(Units(text)) % WORD)
    ensures -0x8000_0000 <= hash < 0x8000_0000 && (hash - Polynomial(Units(text))) % 0x1_0000_0000 == 0
  {
    hide AsInt32, Units, Polynomial;
    var units := Units(text);
    var value := 0;
    for i := 0 to |units|
      invariant 0 <= value < WORD && value == Horner(units[..i]) % WORD
    {
      assert units[..i + 1][..i] == units[..i];
      MaskedStep(Horner(units[..i]), value, units[i]);
      value := (value * 31 + units[i]) % WORD;
    }
    assert units[..|units|] == units;
    HornerIsPolynomial(units);
    AsInt32IsCongruent(Polynomial(units));
    hash := AsInt32(value);
  }

  // ---- base 36 ----

  predicate IsDigit(c: char) { '0' <= c <= '9' || 'a' <= c <= 'z' }

  function DigitValue(c: char): (v: nat)
    requires IsDigit(c)
    ensures v < 36
  {
    if c <= '9' then c as int - '0' as int else c as int - 'a' as int + 10
  }

  function Digit(v: nat): (c: char)
    requires v < 36
    ensures IsDigit(c) && DigitValue(c) == v
  {
    if v < 10 then ('0' as int + v) as char else ('a' as int + v - 10) as char
  }

  lemma DigitIsUnique(c: char)
    requires IsDigit(c)
    ensures Digit(DigitValue(c)) == c
  {
  }

  const ALPHABET := "0123456789abcdefghijklmnopqrstuvwxyz"

  /** The digits are those of the alphabet, each worth its place in it. */
  lemma DigitsAreTheAlphabet(v: nat)
    requires v < 36
    ensures |ALPHABET| == 36 && Digit(v) == ALPHABET[v] && DigitValue(ALPHABET[v]) == v
  {
    assert ALPHABET[..10] == "0123456789";
  }

  predicate IsNumeral(s: string) { forall i | 0 <= i < |s| :: IsDigit(s[i]) }

  /** Positional value, the last digit lowest. */
  function Value(s: string): nat
    requires IsNumeral(s)
  {
    if s == "" then 0 else Value(s[..|s| - 1]) * 36 + DigitValue(s[|s| - 1])
  }

  /** The usual way to write a number: no leading zero, except for zero itself. */
  predicate IsCanonical(s: string) { s != "" && IsNumeral(s) && (s[0] == '0' ==> s == "0") }

  lemma Carry(d: nat, p: nat, v: nat)
    ensures (d * p + v) * 36 == d * (36 * p) + v * 36
  {
  }

  lemma {:induction false} ValueOfFront(c: char, s: string)
    requires IsDigit(c) && IsNumeral(s)
    ensures Value([c] + s) == DigitValue(c) * Pow(36, |s|) + Value(s)
  {
    if s == "" {
      assert [c] + s == [c] && [c][..0] == "";
    } else {
      var n := |s| - 1;
      assert ([c] + s)[..n + 1] == [c] + s[..n];
      ValueOfFront(c, s[..n]);
      Carry(DigitValue(c), Pow(36, n), Value(s[..n]));
      assert Pow(36, |s|) == 36 * Pow(36, n);
      assert Value([c] + s) == Value([c] + s[..n]) * 36 + DigitValue(s[n]);
    }
  }

  method Base36(value: nat) returns (digits: string)
    ensures IsCanonical(digits) && Value(digits) == value
    ensures value < Pow(36, 6) ==> |digits| <= 6
  {
    var rest := value;
    digits := "";
    while true
      invariant IsNumeral(digits) && rest * Pow(36, |digits|) + Value(digits) == value
      invariant digits == "" || rest > 0
      decreases rest
    {
      var digit := rest % 36;
      ghost var before, quotient := digits, rest / 36;
      ValueOfFront(Digit(digit), digits);
      assert rest == quotient * 36 + digit;
      Shift(quotient, digit, Pow(36, |digits|));
      rest := rest / 36;
      digits := [Digit(digit)] + digits;
      if rest == 0 {
        break;
      }
    }
    NumeralLength(digits, value);
  }

  lemma Shift(quotient: nat, digit: nat, p: nat)
    ensures (quotient * 36 + digit) * p == quotient * (36 * p) + digit * p
  {
  }

  lemma {:induction false} PowGrows(e: nat, f: nat)
    requires e <= f
    ensures 1 <= Pow(36, e) <= Pow(36, f)
    decreases f
  {
    if f > 0 {
      if e == f {
        PowGrows(e - 1, f - 1);
      } else {
        PowGrows(e, f - 1);
      }
    }
  }

  lemma AtLeast(d: nat, p: nat)
    requires d >= 1
    ensures d * p >= p
  {
  }

  lemma NoLeadingZero(s: string)
    requires s != "" && IsNumeral(s) && s[0] != '0'
    ensures Value(s) >= Pow(36, |s| - 1)
  {
    hide Value, Pow;
    assert s == [s[0]] + s[1..];
    ValueOfFront(s[0], s[1..]);
    AtLeast(DigitValue(s[0]), Pow(36, |s| - 1));
  }

  /** A canonical numeral of `n` digits is at least 36 to the `n - 1`, or zero. */
  lemma NumeralLength(s: string, value: nat)
    requires IsCanonical(s) && Value(s) == value
    ensures value < Pow(36, 6) ==> |s| <= 6
  {
    hide Value, Pow;
    if s[0] != '0' {
      NoLeadingZero(s);
      if |s| > 6 {
        PowGrows(6, |s| - 1);
      }
    }
  }

  lemma SameDigits(x: nat, d: nat, y: nat, e: nat)
    requires d < 36 && e < 36 && x * 36 + d == y * 36 + e
    ensures x == y && d == e
  {
  }

  lemma {:induction false} NumeralsAreUnique(a: string, b: string)
    requires IsNumeral(a) && IsNumeral(b) && |a| == |b| && Value(a) == Value(b)
    ensures a == b
  {
    hide Digit, DigitValue;
    if a != "" {
      var n := |a| - 1;
      SameDigits(Value(a[..n]), DigitValue(a[n]), Value(b[..n]), DigitValue(b[n]));
      DigitIsUnique(a[n]);
      DigitIsUnique(b[n]);
      NumeralsAreUnique(a[..n], b[..n]);
      assert a == a[..n] + [a[n]] && b == b[..n] + [b[n]];
    }
  }

  lemma {:induction false} ValueIsBounded(s: string)
    requires IsNumeral(s)
    ensures Value(s) < Pow(36, |s|)
  {
    if s != "" {
      ValueIsBounded(s[..|s| - 1]);
    }
  }

  lemma LongerIsLarger(a: string, b: string)
    requires IsCanonical(a) && IsCanonical(b) && |a| < |b|
    ensures Value(a) < Value(b)
  {
    hide Value, Pow;
    NoLeadingZero(b);
    ValueIsBounded(a);
    PowGrows(|a|, |b| - 1);
  }

  /** Canonical numerals and numbers correspond one to one. */
  lemma CanonicalIsUnique(a: string, b: string)
    requires IsCanonical(a) && IsCanonical(b)
    ensures Value(a) == Value(b) <==> a == b
  {
    if |a| < |b| {
      LongerIsLarger(a, b);
    } else if |b| < |a| {
      LongerIsLarger(b, a);
    } else if Value(a) == Value(b) {
      NumeralsAreUnique(a, b);
    }
  }

  // ---- the slug ----

  const SLUG_MAX := 200

  predicate IsSafe(c: char) { 'A' <= c <= 'Z' || 'a' <= c <= 'z' || '0' <= c <= '9' }

  function Safe(path: string): string {
    seq(|path|, i requires 0 <= i < |path| => if IsSafe(path[i]) then path[i] else '-')
  }

  lemma HashFitsSixDigits(n: nat)
    requires n <= 0x8000_0000
    ensures n < Pow(36, 6)
  {
    assert Pow(36, 2) == 1296;
    assert Pow(36, 4) == 1679616;
    assert Pow(36, 6) == 2176782336;
  }

  function Abs(n: int): nat { if n < 0 then -n else n }

  /** At most 207 characters, all letters, digits and `-`; a path of at most 200 keeps its length. */
  method ClaudeProjectSlug(path: string) returns (slug: string)
    ensures |slug| <= 207 && forall i | 0 <= i < |slug| :: IsSafe(slug[i]) || slug[i] == '-'
    ensures |path| <= SLUG_MAX ==> slug == Safe(path)
    ensures forall i | 0 <= i < |path| && i < 200 ::
              i < |slug| && slug[i] == if IsSafe(path[i]) then path[i] else '-'
    ensures |path| > SLUG_MAX ==>
              && SLUG_MAX + 2 <= |slug| && slug[..SLUG_MAX] == Safe(path)[..SLUG_MAX] && slug[SLUG_MAX] == '-'
              && IsCanonical(slug[SLUG_MAX + 1..])
              && Value(slug[SLUG_MAX + 1..]) == Abs(AsInt32(Polynomial(Units(path)) % WORD))
  {
    slug := Safe(path);
    if |slug| > SLUG_MAX {
      var hash := JavaStringHash(path);
      HashFitsSixDigits(Abs(hash));
      var digits := Base36(Abs(hash));
      slug := slug[..SLUG_MAX] + "-" + digits;
      assert slug[SLUG_MAX + 1..] == digits;
    }
  }
}
