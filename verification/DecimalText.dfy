/**
 * Decimals as text: `str(Decimal)` and the reading of it back. The text carries the whole decimal, so
 * reading what was written gives the same coefficient and the same exponent.
 */
module DecimalText {
  import opened Numerals
  import opened Decimals
  import opened Wrappers

  function Digit(d: nat): char
    requires d < 10
  {
    '0' + d as char
  }

  function DigitValue(c: char): int {
    c as int - '0' as int
  }

  predicate IsDigit(c: char) {
    '0' <= c <= '9'
  }

  predicate AllDigits(s: string) {
    forall i :: 0 <= i < |s| ==> IsDigit(s[i])
  }

  function Digits(n: nat): (s: string)
    ensures |s| == NumDigits(n) && AllDigits(s)
  {
    if n < 10 then [Digit(n)] else Digits(n / 10) + [Digit(n % 10)]
  }

  function Zeros(k: nat): (s: string)
    ensures |s| == k && AllDigits(s)
  {
    seq(k, _ => '0')
  }

  /** The number a digit string spells. */
  function Spelled(s: string): (n: nat)
    requires AllDigits(s)
  {
    if s == "" then 0 else 10 * Spelled(s[..|s| - 1]) + DigitValue(s[|s| - 1])
  }

  lemma {:induction false} SpelledDigits(n: nat)
    ensures Spelled(Digits(n)) == n
  {
    if n >= 10 {
      SpelledDigits(n / 10);
      var s := Digits(n);
      assert s[..|s| - 1] == Digits(n / 10);
    }
  }

  lemma {:induction false} SpelledLeadingZeros(z: string, s: string)
    requires AllDigits(s) && forall i :: 0 <= i < |z| ==> z[i] == '0'
    ensures AllDigits(z + s) && Spelled(z + s) == Spelled(s)
    decreases |z| + |s|
  {
    var t := z + s;
    if |s| > 0 {
      assert t[..|t| - 1] == z + s[..|s| - 1];
      SpelledLeadingZeros(z, s[..|s| - 1]);
    } else if |z| > 0 {
      assert t[..|t| - 1] == z[..|z| - 1] + s;
      SpelledLeadingZeros(z[..|z| - 1], s);
    }
  }

  /** The digits with a point after the first `dot` of them, padded with zeros on the left if needed. */
  function Pointed(digits: string, dot: int): string
    requires dot <= |digits|
  {
    if dot <= 0 then "0." + Zeros(-dot) + digits
    else if dot == |digits| then digits
    else digits[..dot] + "." + digits[dot..]
  }

  /** `str(Decimal)`: plain notation for small scales, otherwise one digit before the point and an exponent. */
  function Str(d: Dec): string {
    var digits := Digits(Abs(d.coeff));
    var left := d.exp + |digits|;
    var sign := if d.coeff < 0 then "-" else "";
    if d.exp <= 0 && left > -6 then sign + Pointed(digits, left)
    else sign + Pointed(digits, 1) + "E" + (if left >= 1 then "+" else "-") + Digits(Abs(left - 1))
  }

  function IntStr(n: int): string {
    if n < 0 then "-" + Digits(-n) else Digits(n)
  }

  /** The first place where `c` stands, or the length when it does not occur. */
  function Find(s: string, c: char): (i: nat)
    ensures i <= |s| && (forall j :: 0 <= j < i ==> s[j] != c) && (i < |s| ==> s[i] == c)
  {
    if s == "" || s[0] == c then 0
    else
      assert forall j :: 1 <= j < |s| ==> s[j] == s[1..][j - 1];
      1 + Find(s[1..], c)
  }

  lemma FindUnique(s: string, c: char, i: nat)
    requires i <= |s| && (forall j :: 0 <= j < i ==> s[j] != c) && (i < |s| ==> s[i] == c)
    ensures Find(s, c) == i
  {
    var j := Find(s, c);
    assert !(i < j) && !(j < i);
  }

  /** Digits with an optional point: the coefficient they spell and how many follow the point. */
  function ParseDigits(s: string): Option<(nat, nat)> {
    var dot := Find(s, '.');
    var fraction := if dot < |s| then s[dot + 1..] else "";
    var all := s[..dot] + fraction;
    if all != "" && AllDigits(all) then Some((Spelled(all), |fraction|)) else None
  }

  function ParseInt(s: string): Option<int> {
    if s != "" && s[0] == '-' then
      if |s| > 1 && AllDigits(s[1..]) then Some(-(Spelled(s[1..]) as int)) else None
    else
      var body := if s != "" && s[0] == '+' then s[1..] else s;
      if body != "" && AllDigits(body) then Some(Spelled(body)) else None
  }

  /** Where the exponent letter stands, in either case. */
  function ExponentAt(s: string): (e: nat)
    ensures e <= |s|
  {
    var upper, lower := Find(s, 'E'), Find(s, 'e');
    if lower < upper then lower else upper
  }

  function ParseUnsigned(s: string): Option<Dec> {
    var e := ExponentAt(s);
    var exponent := if e == |s| then Some(0) else ParseInt(s[e + 1..]);
    var digits := ParseDigits(s[..e]);
    if exponent.Some? && digits.Some? then Some(Dec(digits.value.0, exponent.value - digits.value.1)) else None
  }

  /** `Decimal(text)` for finite numbers: sign, digits with an optional point, optional exponent. */
  function Parse(s: string): Option<Dec> {
    if s != "" && s[0] == '-' then
      var d := ParseUnsigned(s[1..]);
      if d.Some? then Some(Dec(-d.value.coeff, d.value.exp)) else None
    else ParseUnsigned(if s != "" && s[0] == '+' then s[1..] else s)
  }

  lemma JoinedParses(a: string, b: string)
    requires AllDigits(a) && AllDigits(b) && a != ""
    ensures AllDigits(a + b)
    ensures ParseDigits(a + "." + b) == Some((Spelled(a + b), |b|))
    ensures ParseDigits(a) == Some((Spelled(a), 0))
  {
    hide Spelled;
    var s := a + "." + b;
    assert s[..|a|] == a && s[|a| + 1..] == b;
    FindUnique(s, '.', |a|);
    FindUnique(a, '.', |a|);
    assert a[..|a|] + "" == a;
  }

  lemma PointedParses(n: nat, dot: int)
    requires dot <= NumDigits(n)
    ensures var s := Pointed(Digits(n), dot);
            && 'E' !in s && 'e' !in s && s != "" && s[0] != '-' && s[0] != '+'
            && ParseDigits(s) == Some((n, NumDigits(n) - dot))
  {
    hide Spelled, Digits, NumDigits, ParseDigits;
    var digits := Digits(n);
    SpelledDigits(n);
    if dot <= 0 {
      JoinedParses("0", Zeros(-dot) + digits);
      SpelledLeadingZeros("0" + Zeros(-dot), digits);
      assert "0" + (Zeros(-dot) + digits) == ("0" + Zeros(-dot)) + digits;
      assert Pointed(digits, dot) == "0" + "." + (Zeros(-dot) + digits);
    } else if dot == |digits| {
      JoinedParses(digits, "");
    } else {
      JoinedParses(digits[..dot], digits[dot..]);
      assert digits[..dot] + digits[dot..] == digits;
    }
  }

  lemma SignedParses(n: int)
    ensures ParseInt((if n >= 0 then "+" else "-") + Digits(Abs(n))) == Some(n)
  {
    SpelledDigits(Abs(n));
    var s := (if n >= 0 then "+" else "-") + Digits(Abs(n));
    assert s[1..] == Digits(Abs(n));
  }

  lemma IntParses(n: int)
    ensures ParseInt(IntStr(n)) == Some(n)
  {
    SpelledDigits(Abs(n));
    if n < 0 {
      assert IntStr(n)[1..] == Digits(-n);
    } else {
      assert IsDigit(Digits(n)[0]);
    }
  }

  /** The decimal that a mantissa and an exponent make. */
  function Joined(mantissa: string, exponent: int): Option<Dec> {
    var digits := ParseDigits(mantissa);
    if digits.Some? then Some(Dec(digits.value.0, exponent - digits.value.1)) else None
  }

  /** An exponent is read after a letter of either case. */
  lemma ExponentParses(m: string, n: int, letter: char)
    requires 'E' !in m && 'e' !in m && (letter == 'E' || letter == 'e')
    ensures ParseUnsigned(m + [letter] + (if n >= 0 then "+" else "-") + Digits(Abs(n))) == Joined(m, n)
  {
    hide ParseDigits, ParseInt, Digits;
    var x := (if n >= 0 then "+" else "-") + Digits(Abs(n));
    var s := m + [letter] + x;
    SignedParses(n);
    DigitsHaveNoLetter(Abs(n));
    assert s[..|m|] == m && s[|m| + 1..] == x;
    assert m + [letter] + (if n >= 0 then "+" else "-") + Digits(Abs(n)) == s;
    FindUnique(s, letter, |m|);
    FindUnique(s, if letter == 'E' then 'e' else 'E', |s|);
  }

  lemma PlainParses(m: string)
    requires 'E' !in m && 'e' !in m
    ensures ParseUnsigned(m) == Joined(m, 0)
  {
    FindUnique(m, 'E', |m|);
    FindUnique(m, 'e', |m|);
    assert m[..|m|] == m;
  }

  lemma DigitsHaveNoLetter(n: nat)
    ensures 'E' !in Digits(n) && 'e' !in Digits(n)
  {
    SpelledDigits(n);
  }

  lemma UnsignedParses(d: Dec)
    requires d.coeff >= 0
    ensures Str(d) != "" && Str(d)[0] != '-' && Str(d)[0] != '+' && ParseUnsigned(Str(d)) == Some(d)
  {
    hide ParseDigits, ParseInt, Digits, ParseUnsigned, Pointed;
    var digits := Digits(d.coeff);
    var left := d.exp + |digits|;
    if d.exp <= 0 && left > -6 {
      PointedParses(d.coeff, left);
      PlainParses(Pointed(digits, left));
      assert Str(d) == Pointed(digits, left);
    } else {
      PointedParses(d.coeff, 1);
      ExponentParses(Pointed(digits, 1), left - 1, 'E');
      assert Str(d) == Pointed(digits, 1) + "E" + (if left - 1 >= 0 then "+" else "-") + Digits(Abs(left - 1));
    }
  }

  /** Reading a printed decimal gives it back, coefficient and exponent. */
  lemma ParseStr(d: Dec)
    ensures Parse(Str(d)) == Some(d)
  {
    hide ParseUnsigned, Digits, Pointed;
    var u := Dec(Abs(d.coeff), d.exp);
    UnsignedParses(u);
    if d.coeff < 0 {
      assert Str(d) == "-" + Str(u);
      assert Str(d)[1..] == Str(u);
    }
  }

  /** A leading plus changes nothing. */
  lemma PlusParses(d: Dec)
    requires d.coeff >= 0
    ensures Parse("+" + Str(d)) == Some(d)
  {
    hide ParseUnsigned, Str;
    UnsignedParses(d);
    assert ("+" + Str(d))[1..] == Str(d);
  }

  /** The text of a small JSON number. */
  lemma SmallNumberParses()
    ensures Parse("1e-07") == Some(Dec(1, -7))
  {
    FindUnique("1e-07", 'e', 1);
    FindUnique("1e-07", 'E', 5);
    FindUnique("1", '.', 1);
    assert "1e-07"[..1] == "1" && "1e-07"[2..] == "-07" && "-07"[1..] == "07";
    assert "1"[..1] + "" == "1";
    assert "07"[..1] == "0" && "0"[..0] == "";
    assert Spelled("") == 0;
    assert Spelled("0") == 0;
    assert Spelled("07") == 7;
    assert "1"[..0] == "";
    assert Spelled("1") == 1;
  }

  /** A decimal is printed with an exponent exactly when its own is positive, or the number below 10^-6. */
  lemma ExponentIff(d: Dec)
    ensures 'E' in Str(d) <==> d.exp > 0 || d.exp + NumDigits(Abs(d.coeff)) - 1 < -6
  {
    hide Digits, NumDigits, Pointed;
    var n := Abs(d.coeff);
    var left := d.exp + NumDigits(n);
    if d.exp <= 0 && left > -6 {
      PointedParses(n, left);
    } else {
      var head := (if d.coeff < 0 then "-" else "") + Pointed(Digits(n), 1);
      assert Str(d) == head + "E" + (if left >= 1 then "+" else "-") + Digits(Abs(left - 1));
      assert Str(d)[|head|] == 'E';
    }
  }

  // ----- short decimals

  lemma TwoDigits(a: nat, b: nat)
    requires 0 < a < 10 && b < 10
    ensures Digits(10 * a + b) == [Digit(a), Digit(b)]
  {
    assert Digits(a) == [Digit(a)];
  }

  lemma ThreeDigits(a: nat, b: nat, c: nat)
    requires 0 < a < 10 && b < 10 && c < 10
    ensures Digits(100 * a + 10 * b + c) == [Digit(a), Digit(b), Digit(c)]
  {
    hide Digits;
    TwoDigits(a, b);
    DivisionUnique(100 * a + 10 * b + c, 10, 10 * a + b, c);
    LastDigit(100 * a + 10 * b + c);
  }

  lemma LastDigit(n: nat)
    requires n >= 10
    ensures Digits(n) == Digits(n / 10) + [Digit(n % 10)]
  {
  }

  lemma TenthsPrint(a: nat, b: nat)
    requires 0 < a < 10 && b < 10
    ensures Str(Dec(10 * a + b, -1)) == [Digit(a), '.', Digit(b)]
  {
    hide Digits;
    TwoDigits(a, b);
  }

  lemma HundredthsPrint(a: nat, b: nat, c: nat)
    requires 0 < a < 10 && b < 10 && c < 10
    ensures Str(Dec(100 * a + 10 * b + c, -2)) == [Digit(a), '.', Digit(b), Digit(c)]
  {
    hide Digits;
    ThreeDigits(a, b, c);
  }

  lemma BelowOnePrint(b: nat, c: nat)
    requires 0 < b < 10 && c < 10
    ensures Str(Dec(b, -1)) == ['0', '.', Digit(b)] && Str(Dec(10 * b + c, -2)) == ['0', '.', Digit(b), Digit(c)]
  {
    hide Digits;
    TwoDigits(b, c);
    assert Digits(b) == [Digit(b)] by { OneDigit(b); }
    assert Zeros(0) == "";
  }

  lemma OneDigit(a: nat)
    requires a < 10
    ensures Digits(a) == [Digit(a)]
  {
  }

  // ----- what does not read

  predicate DecimalChar(c: char) {
    IsDigit(c) || c == '+' || c == '-' || c == '.' || c == 'e' || c == 'E'
  }

  predicate DecimalChars(s: string) {
    forall i :: 0 <= i < |s| ==> DecimalChar(s[i])
  }

  predicate HasDigit(s: string) {
    exists i :: 0 <= i < |s| && IsDigit(s[i])
  }

  lemma DigitsOnly(s: string)
    requires ParseDigits(s).Some?
    ensures DecimalChars(s) && HasDigit(s)
  {
    hide Spelled;
    var dot := Find(s, '.');
    var all := s[..dot] + if dot < |s| then s[dot + 1..] else "";
    assert IsDigit(all[0]);
    forall i | 0 <= i < |s| ensures DecimalChar(s[i]) {
      if i < dot {
        assert s[i] == all[i];
      } else if i > dot {
        assert s[i] == all[i - 1];
      }
    }
    assert if dot > 0 then s[0] == all[0] else s[1] == all[0];
  }

  lemma IntOnly(s: string)
    requires ParseInt(s).Some?
    ensures DecimalChars(s)
  {
    hide Spelled;
    if s[0] == '-' || s[0] == '+' {
      assert forall i :: 1 <= i < |s| ==> s[i] == s[1..][i - 1];
    }
  }

  lemma UnsignedOnly(s: string)
    requires ParseUnsigned(s).Some?
    ensures DecimalChars(s) && HasDigit(s)
  {
    hide ParseDigits, ParseInt;
    var e := ExponentAt(s);
    DigitsOnly(s[..e]);
    var k :| 0 <= k < e && IsDigit(s[..e][k]);
    assert IsDigit(s[k]);
    if e < |s| {
      IntOnly(s[e + 1..]);
    }
    forall i | 0 <= i < |s| ensures DecimalChar(s[i]) {
      if i < e {
        assert s[i] == s[..e][i];
      } else if i > e {
        assert s[i] == s[e + 1..][i - e - 1];
      } else {
        assert s[e] == 'e' || s[e] == 'E';
      }
    }
  }

  /** Only digits, signs, points and exponent letters read as a decimal, and only with a digit among them. */
  lemma ParsesOnly(s: string)
    requires Parse(s).Some?
    ensures DecimalChars(s) && HasDigit(s)
  {
    hide ParseUnsigned;
    if s != "" && (s[0] == '-' || s[0] == '+') {
      UnsignedOnly(s[1..]);
      var k :| 0 <= k < |s| - 1 && IsDigit(s[1..][k]);
      assert IsDigit(s[k + 1]);
      assert forall i :: 1 <= i < |s| ==> s[i] == s[1..][i - 1];
    } else {
      UnsignedOnly(s);
    }
  }
}
