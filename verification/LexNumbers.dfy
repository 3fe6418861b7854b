/** Numbers as texts: what is a number is said by spelling alone, and the scanner takes the longest one. */
module LexNumbers {
  import opened Lexing
  import opened LexForms

  // ----- alphabets -----

  const DIGITS := "0123456789"
  const HEX_DIGITS := "0123456789abcdefABCDEF"
  const LOWER := "abcdefghijklmnopqrstuvwxyz"
  const UPPER := "ABCDEFGHIJKLMNOPQRSTUVWXYZ"

  /** The classes of characters, letter by letter. */
  lemma Alphabets(c: char)
    ensures In(Digit, c) <==> c in DIGITS
    ensures In(HexDigit, c) <==> c in HEX_DIGITS
    ensures In(BinaryDigit, c) <==> c in "01"
    ensures In(OctalDigit, c) <==> c in "01234567"
    ensures In(White, c) <==> c in " \t\r\n"
  {
    if In(Digit, c) {
      var i := c as int - '0' as int;
      assert DIGITS[i] == c && HEX_DIGITS[i] == c;
    } else if 'a' <= c <= 'f' {
      var i := c as int - 'a' as int;
      assert HEX_DIGITS[10 + i] == c;
    } else if 'A' <= c <= 'F' {
      var i := c as int - 'A' as int;
      assert HEX_DIGITS[16 + i] == c;
    }
    assert c == '0' ==> "01"[0] == c;
    assert c == '1' ==> "01"[1] == c;
    if '0' <= c <= '7' {
      var i := c as int - '0' as int;
      assert "01234567"[i] == c;
    }
    assert c == ' ' ==> " \t\r\n"[0] == c;
    assert c == '\t' ==> " \t\r\n"[1] == c;
    assert c == '\r' ==> " \t\r\n"[2] == c;
    assert c == '\n' ==> " \t\r\n"[3] == c;
  }

  lemma Lower(c: char)
    ensures 'a' <= c <= 'z' <==> c in LOWER
  {
    if 'a' <= c <= 'm' {
      assert LOWER[c as int - 'a' as int] == c;
    } else if 'n' <= c <= 'z' {
      assert LOWER[c as int - 'a' as int] == c;
    }
  }

  lemma Upper(c: char)
    ensures 'A' <= c <= 'Z' <==> c in UPPER
  {
    if 'A' <= c <= 'M' {
      assert UPPER[c as int - 'A' as int] == c;
    } else if 'N' <= c <= 'Z' {
      assert UPPER[c as int - 'A' as int] == c;
    }
  }

  /** A word starts with a letter or an underscore and goes on with these and digits. */
  lemma Letters(c: char)
    ensures IsAlpha(c) <==> c in LOWER || c in UPPER || c == '_'
    ensures In(Alphanumeric, c) <==> c in LOWER || c in UPPER || c == '_' || c in DIGITS
  {
    Lower(c);
    Upper(c);
    Alphabets(c);
  }

  // ----- what is a number -----

  predicate Over(t: string, alphabet: string) {
    forall i :: 0 <= i < |t| ==> t[i] in alphabet
  }

  /** A hexadecimal, binary or octal number. The digits behind its prefix may be missing. */
  predicate IsPrefixed(t: string) {
    |t| >= 2 &&
    ((t[..2] in {"0x", "0X"} && Over(t[2..], HEX_DIGITS))
     || (t[..2] in {"0b", "0B"} && Over(t[2..], "01"))
     || (t[..2] in {"0o", "0O"} && Over(t[2..], "01234567")))
  }

  /** A point and at least one digit. */
  predicate IsFractionText(t: string) {
    |t| >= 2 && t[0] == '.' && Over(t[1..], DIGITS)
  }

  /** `e` or `E`, a sign that may be missing, and digits that may be missing. */
  predicate IsExponentText(t: string) {
    && t != "" && t[0] in "eE"
    && (Over(t[1..], DIGITS) || (|t| >= 2 && t[1] in "+-" && Over(t[2..], DIGITS)))
  }

  /** Digits up to `a`, a fraction up to `b` and an exponent, of which the last two may be missing. */
  predicate IsDecimal(t: string, a: nat, b: nat) {
    && 1 <= a <= b <= |t| && Over(t[..a], DIGITS)
    && (a == b || IsFractionText(t[a..b])) && (b == |t| || IsExponentText(t[b..]))
  }

  predicate IsNumber(t: string) {
    IsPrefixed(t) || exists a, b :: 1 <= a <= b <= |t| && IsDecimal(t, a, b)
  }

  /** A number is a float when it has no prefix, but a point or an exponent mark. */
  predicate IsFloat(t: string) {
    !IsPrefixed(t) && exists i :: 0 <= i < |t| && t[i] in ".eE"
  }

  // ----- the scanner takes the longest number -----

  lemma OverDigits(s: string, i: nat, j: nat)
    requires i <= j <= |s|
    ensures Over(s[i..j], DIGITS) <==> AllIn(Digit, s, i, j)
    ensures Over(s[i..j], HEX_DIGITS) <==> AllIn(HexDigit, s, i, j)
    ensures Over(s[i..j], "01") <==> AllIn(BinaryDigit, s, i, j)
    ensures Over(s[i..j], "01234567") <==> AllIn(OctalDigit, s, i, j)
  {
    hide In;
    forall m | i <= m < j
      ensures s[m] == s[i..j][m - i]
      ensures In(Digit, s[m]) <==> s[m] in DIGITS
      ensures In(HexDigit, s[m]) <==> s[m] in HEX_DIGITS
      ensures In(BinaryDigit, s[m]) <==> s[m] in "01"
      ensures In(OctalDigit, s[m]) <==> s[m] in "01234567"
    {
      Alphabets(s[m]);
    }
    forall m | 0 <= m < j - i ensures s[i..j][m] == s[i + m] {}
  }

  /** The spelled prefix decides the radix. */
  lemma PrefixedIs(s: string, m: nat)
    requires m <= |s|
    ensures IsPrefixed(s[..m]) <==> m >= 2 && Radix(s) != Digit && AllIn(Radix(s), s, 2, m)
  {
    hide In, AllIn, Over;
    if m >= 2 {
      assert s[..m][2..] == s[2..m] && s[..m][..2] == [s[0], s[1]];
      OverDigits(s, 2, m);
    }
  }

  lemma FractionIs(s: string, i: nat, j: nat)
    requires i < j <= |s|
    ensures IsFractionText(s[i..j]) <==> j >= i + 2 && s[i] == '.' && AllIn(Digit, s, i + 1, j)
  {
    hide In, AllIn, Over;
    assert s[i..j][1..] == s[i + 1..j];
    OverDigits(s, i + 1, j);
  }

  lemma ExponentIs(s: string, i: nat, j: nat)
    requires i < j <= |s|
    ensures IsExponentText(s[i..j]) <==>
            && (s[i] == 'e' || s[i] == 'E')
            && (AllIn(Digit, s, i + 1, j) ||
                (j >= i + 2 && (s[i + 1] == '+' || s[i + 1] == '-') && AllIn(Digit, s, i + 2, j)))
  {
    hide In, AllIn, Over;
    assert s[i..j][1..] == s[i + 1..j];
    OverDigits(s, i + 1, j);
    if j >= i + 2 {
      assert s[i..j][2..] == s[i + 2..j];
      OverDigits(s, i + 2, j);
    }
  }

  /** The same, of a prefix of the text. */
  lemma DecimalIs(s: string, m: nat, a: nat, b: nat)
    requires 1 <= a <= b <= m <= |s|
    ensures IsDecimal(s[..m], a, b) <==>
            && AllIn(Digit, s, 0, a) && (a == b || IsFractionText(s[a..b])) && (b == m || IsExponentText(s[b..m]))
  {
    hide In, AllIn, Over, IsFractionText, IsExponentText;
    assert s[..m][..a] == s[0..a] && s[..m][a..b] == s[a..b] && s[..m][b..] == s[b..m];
    OverDigits(s, 0, a);
  }

  lemma FractionTaken(s: string, i: nat)
    requires i <= |s|
    ensures var j := FractionEnd(s, i); i <= j <= |s| && (i == j || IsFractionText(s[i..j]))
  {
    var j := FractionEnd(s, i);
    if i < j {
      FractionIs(s, i, j);
    }
  }

  lemma ExponentTaken(s: string, i: nat)
    requires i <= |s|
    ensures var j := ExponentEnd(s, i); i <= j <= |s| && (i == j || IsExponentText(s[i..j]))
  {
    var j := ExponentEnd(s, i);
    if i < j {
      ExponentIs(s, i, j);
    }
  }

  lemma NumberIsNumber(s: string)
    requires s != [] && IsDigit(s[0])
    ensures IsNumber(s[..Number(s).0])
  {
    hide FractionEnd, ExponentEnd, IsFractionText, IsExponentText, IsDecimal, IsPrefixed, Radix, HasFraction, HasExponent;
    var n := Number(s).0;
    if Radix(s) != Digit {
      PrefixIsThere(s);
      PrefixedIs(s, n);
    } else {
      var a := End(Digit, s, 0);
      var b := FractionEnd(s, a);
      FractionTaken(s, a);
      ExponentTaken(s, b);
      DecimalIs(s, n, a, b);
    }
  }

  lemma PrefixIsThere(s: string)
    requires s != [] && Radix(s) != Digit
    ensures |s| >= 2
  {}

  /** No longer text is a decimal number. */
  lemma NoLongerDecimal(s: string, m: nat, a: nat, b: nat)
    requires s != [] && IsDigit(s[0]) && Radix(s) == Digit && m <= |s| && IsDecimal(s[..m], a, b)
    ensures m <= Number(s).0
  {
    var a1 := End(Digit, s, 0);
    var b1 := FractionEnd(s, a1);
    DecimalIs(s, m, a, b);
    if a < b {
      FractionIs(s, a, b);
    }
    if b < m {
      ExponentIs(s, b, m);
    }
    assert a <= a1;
    if a == a1 && b == b1 {
      assert m <= ExponentEnd(s, b1);
    } else if a == a1 {
      assert m == b;
    } else {
      assert IsDigit(s[a]);
      assert a == b == m;
    }
  }

  lemma NoDecimalBehindPrefix(s: string, m: nat, a: nat, b: nat)
    requires Radix(s) != Digit && 2 < m <= |s|
    ensures !IsDecimal(s[..m], a, b)
  {
    if IsDecimal(s[..m], a, b) {
      DecimalIs(s, m, a, b);
      assert a > 1 ==> In(Digit, s[1]);
      if a < b {
        FractionIs(s, a, b);
      }
      if b < m {
        ExponentIs(s, b, m);
      }
    }
  }

  /** For every source that starts with a digit, the lexeme is a number and no longer prefix of the source is one; it is
      a float exactly when it has no prefix, but a point or an exponent mark. */
  lemma LongestNumber(s: string)
    requires s != [] && IsDigit(s[0])
    ensures var l := Lex(s);
            && l.Lexeme? && IsNumber(s[..l.n]) && (forall m :: l.n < m <= |s| ==> !IsNumber(s[..m]))
            && l.kind == if IsFloat(s[..l.n]) then FloatLiteral else IntegerLiteral
  {
    hide IsDecimal, IsPrefixed, In, IsFloat;
    var n := Number(s).0;
    NumberIsNumber(s);
    forall m | n < m <= |s| ensures !IsNumber(s[..m]) {
      PrefixedIs(s, m);
      forall a, b ensures !IsDecimal(s[..m], a, b) {
        if Radix(s) == Digit {
          if IsDecimal(s[..m], a, b) {
            NoLongerDecimal(s, m, a, b);
          }
        } else {
          NoDecimalBehindPrefix(s, m, a, b);
        }
      }
      if Radix(s) != Digit {
        assert !In(Radix(s), s[n]);
      }
    }
    FloatMarks(s);
  }

  lemma FloatMarks(s: string)
    requires s != [] && IsDigit(s[0])
    ensures Number(s).1 <==> IsFloat(s[..Number(s).0])
  {
    var n := Number(s).0;
    PrefixedIs(s, n);
    assert forall i :: 0 <= i < n ==> s[..n][i] == s[i];
    if Radix(s) == Digit {
      var a := End(Digit, s, 0);
      var b := FractionEnd(s, a);
      assert forall i :: 0 <= i < a ==> IsDigit(s[i]);
      assert HasFraction(s, a) ==> s[..n][a] in ".eE";
      assert HasExponent(s, b) ==> b < n && s[..n][b] in ".eE";
      assert !HasFraction(s, a) ==> a == b;
      assert !HasExponent(s, b) ==> b == n;
    }
  }
}
