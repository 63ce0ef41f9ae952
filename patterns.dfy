/** The character-level checks that the application form's validator
    performs with regular expressions and with JavaScript's numeric
    coercion, written out as predicates on strings.

    Each check comes in the form the validator evaluates (a scan that can
    run) and, where the regular expression allows several ways to match,
    a ghost definition that says literally what the expression accepts,
    with a lemma tying the two together. */
module Patterns {

  datatype Option<+T> = None | Some(value: T)

  /** JavaScript's `\s` class: the ECMAScript WhiteSpace and
      LineTerminator code points. */
  predicate IsWhitespace(c: char) {
    ('\U{0009}' <= c <= '\U{000D}') || c == ' ' || c == '\U{00A0}' || c == '\U{1680}'
    || ('\U{2000}' <= c <= '\U{200A}') || c == '\U{2028}' || c == '\U{2029}'
    || c == '\U{202F}' || c == '\U{205F}' || c == '\U{3000}' || c == '\U{FEFF}'
  }

  predicate IsDigit(c: char) {
    '0' <= c <= '9'
  }

  predicate AllDigits(s: string) {
    forall i | 0 <= i < |s| :: IsDigit(s[i])
  }

  /** The index of the first character of `s` that lies in `cs`, or `|s|`
      when there is none. */
  function IndexOfAny(s: string, cs: set<char>): (k: nat)
    ensures k <= |s|
    ensures k < |s| ==> s[k] in cs
    ensures forall i | 0 <= i < k :: s[i] !in cs
  {
    if s == [] then 0
    else if s[0] in cs then 0
    else 1 + IndexOfAny(s[1..], cs)
  }

  // ---------------------------------------------------------------------
  // Email: /^[^\s@]+@[^\s@]+\.[^\s@]+$/

  /** Every character belongs to `[^\s@]`. */
  predicate EmailAtom(s: string) {
    forall i | 0 <= i < |s| :: !IsWhitespace(s[i]) && s[i] != '@'
  }

  /** A `.` that is neither the first nor the last character. */
  predicate HasInnerDot(t: string) {
    |t| >= 3 && IndexOfAny(t[1..], {'.'}) < |t| - 2
  }

  /** The scan the validator performs: split at the first `@`; the part
      before is a non-empty atom, the part after is an atom with an inner
      dot. */
  predicate IsEmail(s: string) {
    var k := IndexOfAny(s, {'@'});
    0 < k < |s| && EmailAtom(s[..k]) && EmailAtom(s[k + 1..]) && HasInnerDot(s[k + 1..])
  }

  /** What the regular expression accepts: an `@` at `i` and a `.` at `j`
      cut `s` into three non-empty runs of `[^\s@]`. */
  ghost predicate MatchesEmailRegex(s: string) {
    exists i, j | 0 < i && i + 1 < j && j + 1 < |s| ::
      s[i] == '@' && s[j] == '.'
      && EmailAtom(s[..i]) && EmailAtom(s[i + 1..j]) && EmailAtom(s[j + 1..])
  }

  lemma AtomSlice(s: string, a: int, b: int)
    requires EmailAtom(s) && 0 <= a <= b <= |s|
    ensures EmailAtom(s[a..b])
  {
    assert forall i | 0 <= i < b - a :: s[a..b][i] == s[a + i];
  }

  lemma AtomJoin(x: string, y: string, z: string)
    requires EmailAtom(x) && EmailAtom(z) && y == "."
    ensures EmailAtom(x + y + z)
  {
    var s := x + y + z;
    forall i | 0 <= i < |s| ensures !IsWhitespace(s[i]) && s[i] != '@' {
      if i < |x| {
        assert s[i] == x[i];
      } else if i == |x| {
        assert s[i] == '.';
      } else {
        assert s[i] == z[i - |x| - 1];
      }
    }
  }

  lemma ScanMatchesRegex(s: string)
    requires IsEmail(s)
    ensures MatchesEmailRegex(s)
  {
    var i := IndexOfAny(s, {'@'});
    var t := s[i + 1..];
    var m := IndexOfAny(t[1..], {'.'});
    var j := i + 2 + m;
    assert t[1..][m] == '.';
    assert s[j] == t[m + 1];
    AtomSlice(t, 0, m + 1);
    AtomSlice(t, m + 2, |t|);
    assert s[i + 1..j] == t[..m + 1];
    assert s[j + 1..] == t[m + 2..];
    assert EmailAtom(s[..i]) && EmailAtom(s[i + 1..j]) && EmailAtom(s[j + 1..]);
    assert 0 < i && i + 1 < j && j + 1 < |s| && s[i] == '@' && s[j] == '.';
  }

  lemma RegexMatchesScan(s: string, i: int, j: int)
    requires 0 < i && i + 1 < j && j + 1 < |s|
    requires s[i] == '@' && s[j] == '.'
    requires EmailAtom(s[..i]) && EmailAtom(s[i + 1..j]) && EmailAtom(s[j + 1..])
    ensures IsEmail(s)
  {
    var k := IndexOfAny(s, {'@'});
    var t := s[i + 1..];
    assert t == s[i + 1..j] + "." + s[j + 1..];
    AtomJoin(s[i + 1..j], ".", s[j + 1..]);
    assert t[1..][j - i - 2] == '.';
  }

  /** The scan accepts exactly the strings the regular expression matches. */
  lemma IsEmailIffRegex(s: string)
    ensures IsEmail(s) <==> MatchesEmailRegex(s)
  {
    if IsEmail(s) {
      ScanMatchesRegex(s);
    }
    if MatchesEmailRegex(s) {
      var i, j :| 0 < i && i + 1 < j && j + 1 < |s|
        && s[i] == '@' && s[j] == '.'
        && EmailAtom(s[..i]) && EmailAtom(s[i + 1..j]) && EmailAtom(s[j + 1..]);
      RegexMatchesScan(s, i, j);
    }
  }

  // ---------------------------------------------------------------------
  // Phone: /^[0-9]+$/

  /** One or more decimal digits and nothing else. */
  predicate IsPhoneNumber(s: string) {
    |s| > 0 && AllDigits(s)
  }

  // ---------------------------------------------------------------------
  // Portfolio: /^(http|https):\/\/[^ "]+$/

  /** One or more characters, none of them a space or a double quote. */
  predicate UrlTail(s: string) {
    |s| > 0 && forall i | 0 <= i < |s| :: s[i] != ' ' && s[i] != '"'
  }

  predicate IsPortfolioUrl(s: string) {
    (|s| >= 7 && s[..7] == "http://" && UrlTail(s[7..]))
    || (|s| >= 8 && s[..8] == "https://" && UrlTail(s[8..]))
  }

  // ---------------------------------------------------------------------
  // Experience: the comparison `experience <= 0`, where JavaScript
  // converts the string with Number() before comparing.

  /** A decimal literal reduced to what decides its sign: whether it
      carries a minus sign, and the digits of its mantissa (integer part
      followed by fraction part, the point dropped). The exponent only
      scales the magnitude by a positive power of ten. */
  datatype Numeral = Numeral(negative: bool, mantissa: string)

  /** An exponent part after `e`/`E`: an optional sign and one or more digits. */
  predicate IsExponent(x: string) {
    var y := if |x| > 0 && (x[0] == '+' || x[0] == '-') then x[1..] else x;
    |y| > 0 && AllDigits(y)
  }

  lemma AllDigitsJoin(a: string, b: string)
    requires AllDigits(a) && AllDigits(b)
    ensures AllDigits(a + b)
  {
    forall i | 0 <= i < |a + b| ensures IsDigit((a + b)[i]) {
      if i >= |a| {
        assert (a + b)[i] == b[i - |a|];
      }
    }
  }

  /** `s` without its leading whitespace (TrimStartShape). */
  function TrimStart(s: string): string {
    if s != [] && IsWhitespace(s[0]) then TrimStart(s[1..]) else s
  }

  /** `s` without its trailing whitespace (TrimEndShape). */
  function TrimEnd(s: string): string {
    if s != [] && IsWhitespace(s[|s| - 1]) then TrimEnd(s[..|s| - 1]) else s
  }

  /** Trimming the start drops a run of whitespace and stops at the first
      other character. */
  lemma {:induction false} TrimStartShape(s: string)
    ensures var t := TrimStart(s);
      && |t| <= |s| && t == s[|s| - |t|..]
      && (forall i | 0 <= i < |s| - |t| :: IsWhitespace(s[i]))
      && (t != [] ==> !IsWhitespace(t[0]))
  {
    if s != [] && IsWhitespace(s[0]) {
      TrimStartShape(s[1..]);
      assert forall i | 1 <= i < |s| :: s[i] == s[1..][i - 1];
    }
  }

  /** Trimming the end drops a run of whitespace and stops at the last
      other character. */
  lemma {:induction false} TrimEndShape(s: string)
    ensures var t := TrimEnd(s);
      && |t| <= |s| && t == s[..|t|]
      && (forall i | |t| <= i < |s| :: IsWhitespace(s[i]))
      && (t != [] ==> !IsWhitespace(t[|t| - 1]))
  {
    if s != [] && IsWhitespace(s[|s| - 1]) {
      TrimEndShape(s[..|s| - 1]);
      assert forall i | 0 <= i < |s| - 1 :: s[i] == s[..|s| - 1][i];
    }
  }

  /** A string that starts and ends with a non-whitespace character is its
      own trimmed form. */
  lemma TrimmedUnchanged(s: string)
    requires s != [] && !IsWhitespace(s[0]) && !IsWhitespace(s[|s| - 1])
    ensures TrimEnd(TrimStart(s)) == s
  {
  }

  /** A blank string trims to nothing. */
  lemma {:induction false} TrimStartBlank(s: string)
    requires forall i | 0 <= i < |s| :: IsWhitespace(s[i])
    ensures TrimStart(s) == []
  {
    if s != [] {
      assert forall i | 0 <= i < |s[1..]| :: s[1..][i] == s[i + 1];
      TrimStartBlank(s[1..]);
    }
  }

  /** Reads `[+-]? digits? (. digits?)? ([eE] [+-]? digits)?` with at least
      one mantissa digit; `None` stands for NaN. */
  function ParseLiteral(s: string): (r: Option<Numeral>)
    ensures r.Some? ==> AllDigits(r.value.mantissa) && |r.value.mantissa| > 0
  {
    var negative := |s| > 0 && s[0] == '-';
    var t := if |s| > 0 && (s[0] == '+' || s[0] == '-') then s[1..] else s;
    var e := IndexOfAny(t, {'e', 'E'});
    var m := t[..e];
    var d := IndexOfAny(m, {'.'});
    var intPart := m[..d];
    var fracPart := if d < |m| then m[d + 1..] else "";
    if (e == |t| || IsExponent(t[e + 1..]))
       && AllDigits(intPart) && AllDigits(fracPart) && |intPart| + |fracPart| > 0
    then
      AllDigitsJoin(intPart, fracPart);
      Some(Numeral(negative, intPart + fracPart))
    else None
  }

  /** Number() on a string: surrounding whitespace (the same characters as
      `\s`) is trimmed, an empty or blank string converts to 0, and what is
      left must be a decimal literal. */
  function ParseNumeral(s: string): (r: Option<Numeral>)
    ensures r.Some? ==> AllDigits(r.value.mantissa) && |r.value.mantissa| > 0
  {
    var u := TrimEnd(TrimStart(s));
    if u == "" then
      assert AllDigits("0");
      Some(Numeral(false, "0"))
    else ParseLiteral(u)
  }

  /** A blank string converts to 0. */
  lemma BlankIsZero(s: string)
    requires forall i | 0 <= i < |s| :: IsWhitespace(s[i])
    ensures ParseNumeral(s) == Some(Numeral(false, "0"))
  {
    TrimStartBlank(s);
  }

  predicate AllZeros(s: string) {
    forall i | 0 <= i < |s| :: s[i] == '0'
  }

  /** `Number(s) <= 0`. NaN compares false, so a string that is not a
      numeral never counts as non-positive; a blank string is 0 and does. */
  predicate NotPositive(s: string) {
    match ParseNumeral(s)
    case None => false
    case Some(n) => n.negative || AllZeros(n.mantissa)
  }

  function DigitValue(c: char): (v: nat)
    requires IsDigit(c)
    ensures v < 10
  {
    (c - '0') as nat
  }

  function DigitChar(v: nat): (c: char)
    requires v < 10
    ensures IsDigit(c) && DigitValue(c) == v
  {
    ('0' as int + v) as char
  }

  /** The value of a run of decimal digits. */
  function DigitsValue(s: string): (v: nat)
    requires AllDigits(s)
  {
    if s == [] then 0 else 10 * DigitsValue(s[..|s| - 1]) + DigitValue(s[|s| - 1])
  }

  /** The signed value of a numeral's mantissa; the numeral's value is this
      times a positive power of ten, so the two have the same sign. */
  function MantissaValue(n: Numeral): int
    requires AllDigits(n.mantissa)
  {
    var v: int := DigitsValue(n.mantissa);
    if n.negative then -v else v
  }

  lemma {:induction false} AllZerosIffZero(s: string)
    requires AllDigits(s)
    ensures AllZeros(s) <==> DigitsValue(s) == 0
  {
    if s != [] {
      var p := s[..|s| - 1];
      assert AllDigits(p);
      AllZerosIffZero(p);
      if AllZeros(s) {
        assert AllZeros(p);
      }
      if DigitsValue(s) == 0 {
        forall i | 0 <= i < |s| ensures s[i] == '0' {
          if i < |s| - 1 {
            assert s[i] == p[i];
          }
        }
      }
    }
  }

  /** The non-positivity test agrees with the signed value of the numeral:
      `Number(s) <= 0` holds exactly when `s` is a numeral whose value is
      at most zero. */
  lemma NotPositiveIffValue(s: string)
    ensures NotPositive(s) <==>
      (ParseNumeral(s).Some? && MantissaValue(ParseNumeral(s).value) <= 0)
  {
    if ParseNumeral(s).Some? {
      AllZerosIffZero(ParseNumeral(s).value.mantissa);
    }
  }

  /** Decimal rendering of a natural number, most significant digit first. */
  function NatString(n: nat): (s: string)
    ensures |s| > 0 && AllDigits(s) && DigitsValue(s) == n
  {
    if n < 10 then [DigitChar(n)]
    else
      var s := NatString(n / 10) + [DigitChar(n % 10)];
      assert s[..|s| - 1] == NatString(n / 10);
      s
  }

  /** Decimal rendering of an integer, with a leading `-` when negative. */
  function IntString(n: int): string {
    if n < 0 then "-" + NatString(-n) else NatString(n)
  }

  lemma NoMarkInDigits(s: string, cs: set<char>)
    requires AllDigits(s) && forall c | c in cs :: !IsDigit(c)
    ensures IndexOfAny(s, cs) == |s|
  {
  }

  /** The decimal rendering of an integer reads back as a numeral with the
      integer's sign and digits. */
  lemma {:induction false} IntegerLiteral(n: int)
    ensures ParseLiteral(IntString(n)) == Some(Numeral(n < 0, NatString(if n < 0 then -n else n)))
  {
    var digits := NatString(if n < 0 then -n else n);
    var s := IntString(n);
    var t := if |s| > 0 && (s[0] == '+' || s[0] == '-') then s[1..] else s;
    assert t == digits by {
      if n < 0 {
        assert s == "-" + digits;
      } else {
        assert !IsDigit('+') && !IsDigit('-');
        assert s[0] == digits[0];
      }
    }
    NoMarkInDigits(digits, {'e', 'E'});
    NoMarkInDigits(digits, {'.'});
    assert digits[..|digits|] == digits;
    assert ParseLiteral(s) == Some(Numeral(n < 0, digits + ""));
    assert digits + "" == digits;
  }

  /** No whitespace surrounds the decimal rendering of an integer, so
      Number() reads it as a literal. */
  lemma IntegerUntrimmed(n: int)
    ensures ParseNumeral(IntString(n)) == ParseLiteral(IntString(n))
  {
    var digits := NatString(if n < 0 then -n else n);
    var s := IntString(n);
    assert IsDigit(s[|s| - 1]) by {
      if n < 0 {
        assert s == "-" + digits;
        assert s[|s| - 1] == digits[|digits| - 1];
      }
    }
    assert !IsWhitespace(s[0]) by {
      if n >= 0 {
        assert s[0] == digits[0];
      }
    }
    TrimmedUnchanged(s);
  }

  lemma IntegerNonEmpty(n: int)
    ensures IntString(n) != ""
  {
  }

  /** An integer typed into the experience field is flagged as not
      positive exactly when it is zero or negative. */
  lemma {:induction false} IntegerExperience(n: int)
    ensures NotPositive(IntString(n)) <==> n <= 0
  {
    IntegerUntrimmed(n);
    IntegerLiteral(n);
    AllZerosIffZero(NatString(if n < 0 then -n else n));
  }

  // ---------------------------------------------------------------------
  // Sample inputs

  lemma SampleEmail()
    ensures IsEmail("a@b.com")
  {
    RegexMatchesScan("a@b.com", 1, 3);
  }

  lemma SamplePhone()
    ensures IsPhoneNumber("123") && !IsPhoneNumber("+123") && !IsPhoneNumber("12 3")
  {
    assert "123"[0] == '1' && "123"[1] == '2' && "123"[2] == '3';
    assert "+123"[0] == '+';
    assert "12 3"[2] == ' ';
  }

  lemma SampleUrl()
    ensures IsPortfolioUrl("https://x.com") && !IsPortfolioUrl("https://")
  {
    assert "https://x.com"[..8] == "https://";
    assert "https://x.com"[8..] == "x.com";
    assert "https://"[..7][4] == 's' != "http://"[4];
    assert "https://"[8..] == "";
  }

  /** Padding around a positive number does not change it. */
  lemma SamplePaddedExperience()
    ensures !NotPositive(" 5 ")
  {
    assert TrimStart(" 5 ") == "5 ";
    assert TrimEnd("5 ") == "5";
    IntegerLiteral(5);
    assert IntString(5) == "5";
  }

  /** Text that is not a number is NaN and never counts as not positive. */
  lemma SampleTextExperience()
    ensures !NotPositive("five")
  {
    assert TrimEnd(TrimStart("five")) == "five";
    assert IndexOfAny("five", {'e', 'E'}) == 3;
    assert !IsDigit('f');
  }
}
