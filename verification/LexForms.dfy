/** What the literals of the language look like, and that the scanners take exactly these. */
module LexForms {
  import opened Lexing
  import TypeNodes

  // ----- strings -----

  /** The character is preceded by an odd number of backslashes, counted from the start of the content. */
  predicate Escaped(s: string, i: nat)
    requires i <= |s|
  {
    i > 1 && s[i - 1] == '\\' && !Escaped(s, i - 1)
  }

  predicate Quote(s: string, i: nat)
    requires i < |s|
  {
    s[i] == '"' && !Escaped(s, i)
  }

  /** The scan looks at unescaped characters only and ends behind the first quote among them. */
  lemma {:induction false} StringEndIsFirstQuote(s: string, i: nat)
    requires 1 <= i <= |s| && !Escaped(s, i) && forall m :: 1 <= m < i ==> !Quote(s, m)
    ensures var j := StringEnd(s, i);
            if j > i && Quote(s, j - 1) then forall m :: 1 <= m < j - 1 ==> !Quote(s, m)
            else j == |s| && forall m :: 1 <= m < |s| ==> !Quote(s, m)
    decreases |s| - i
  {
    if i < |s| && s[i] != '"' {
      assert !Quote(s, i);
      if s[i] == '\\' {
        assert Escaped(s, i + 1);
        if i + 1 < |s| {
          assert !Quote(s, i + 1) && !Escaped(s, i + 2);
          StringEndIsFirstQuote(s, i + 2);
        }
      } else {
        StringEndIsFirstQuote(s, i + 1);
      }
    }
  }

  /** A string literal ends behind the first quote that is not escaped, or, without one, with the source. */
  lemma StringLiteralForm(s: string)
    requires s != [] && s[0] == '"'
    ensures var l := Lex(s);
            && l.Lexeme? && l.kind == StringLiteral
            && if l.n > 1 && Quote(s, l.n - 1) then forall m :: 1 <= m < l.n - 1 ==> !Quote(s, m)
               else l.n == |s| && forall m :: 1 <= m < |s| ==> !Quote(s, m)
  {
    StringEndIsFirstQuote(s, 1);
  }

  // ----- characters -----

  predicate IsCharLiteral(t: string) {
    && |t| >= 3 && t[0] == '\'' && t[|t| - 1] == '\''
    && (|| (|t| == 3 && t[1] != '\'' && t[1] != '\\')
        || (|t| == 4 && t[1] == '\\' && t[2] in {'n', 't', 'r', '0', '\\', '\'', '"'})
        || (|t| == 6 && t[1] == '\\' && t[2] == 'x' && In(HexDigit, t[3]) && In(HexDigit, t[4])))
  }

  /** A character literal is taken exactly when the text starts with one; everything else is malformed. */
  lemma CharLiteralForm(s: string, n: nat)
    requires s != [] && s[0] == '\'' && n <= |s|
    ensures Lex(s) == Lexeme(CharLiteral, n) <==> IsCharLiteral(s[..n])
    ensures Lex(s).Malformed? || Lex(s).kind == CharLiteral
  {
    hide Number, StringEnd, Punctuation, IsKeyword, End;
    assert n > 0 ==> s[..n][n - 1] == s[n - 1] && s[..n][0] == s[0];
    assert n > 1 ==> s[..n][1] == s[1];
    assert n > 2 ==> s[..n][2] == s[2];
    assert n > 3 ==> s[..n][3] == s[3];
    assert n > 4 ==> s[..n][4] == s[4];
  }

  // ----- numbers -----

  predicate AllIn(k: Class, s: string, i: nat, j: nat)
    requires i <= j <= |s|
  {
    forall m :: i <= m < j ==> In(k, s[m])
  }

  /** Nothing, or a point and at least one digit. */
  predicate IsFraction(s: string, i: nat, j: nat)
    requires i <= j <= |s|
  {
    i == j || (j >= i + 2 && s[i] == '.' && AllIn(Digit, s, i + 1, j))
  }

  /** Nothing, or `e`, a sign that may be missing, and digits that may be missing. */
  predicate IsExponent(s: string, i: nat, j: nat)
    requires i <= j <= |s|
  {
    i == j ||
    ((s[i] == 'e' || s[i] == 'E') &&
     (AllIn(Digit, s, i + 1, j) || (j >= i + 2 && (s[i + 1] == '+' || s[i + 1] == '-') && AllIn(Digit, s, i + 2, j))))
  }

  lemma FractionForm(s: string, i: nat)
    requires i <= |s|
    ensures var j := FractionEnd(s, i);
            IsFraction(s, i, j) && (HasFraction(s, i) <==> i < j) && (j < |s| && i < j ==> !IsDigit(s[j]))
  {}

  lemma ExponentForm(s: string, i: nat)
    requires i <= |s|
    ensures var j := ExponentEnd(s, i);
            IsExponent(s, i, j) && (HasExponent(s, i) <==> i < j) && (j < |s| && i < j ==> !IsDigit(s[j]))
  {}

  /** A number is a prefixed literal with the digits of its radix, or digits with a fraction and an exponent
      that may be missing; it is a float when one of them is there. It reaches as far as its digits do. */
  lemma NumberForm(s: string)
    requires s != [] && IsDigit(s[0])
    ensures var (n, float) := Number(s);
            && Lex(s) == Lexeme(if float then FloatLiteral else IntegerLiteral, n)
            && (n < |s| ==> !In(Radix(s), s[n]))
            && if Radix(s) != Digit then !float && n >= 2 && AllIn(Radix(s), s, 2, n)
               else exists a, b :: 1 <= a <= b <= n && AllIn(Digit, s, 0, a) && IsFraction(s, a, b)
                                   && IsExponent(s, b, n) && (float <==> a < n)
  {
    hide FractionEnd, ExponentEnd, HasFraction, HasExponent, IsFraction, IsExponent;
    if Radix(s) == Digit {
      var a := End(Digit, s, 0);
      var b := FractionEnd(s, a);
      FractionForm(s, a);
      ExponentForm(s, b);
      assert 1 <= a <= b;
    }
  }

  /** A word is the longest run of letters, digits and underscores; keywords are told apart by their spelling. */
  lemma WordForm(s: string)
    requires s != [] && IsAlpha(s[0])
    ensures var l := Lex(s);
            && l.Lexeme? && AllIn(Alphanumeric, s, 0, l.n) && (l.n < |s| ==> !In(Alphanumeric, s[l.n]))
            && l.kind == if IsKeyword(s[..l.n]) then Keyword else Identifier
  {
    hide IsKeyword;
  }

  // ----- keywords -----

  const DECLARING := {"fn", "struct", "enum", "var", "const", "let", "import", "cimport", "extern", "shard"}
  const STATING := {"if", "else", "while", "for", "in", "return", "break", "continue", "defer", "match", "case"}
  const VALUES := {"true", "false", "nil"}

  /** The words that start declarations and statements, the constants, the built-in types, `map` and `as`: only these
      are keywords. */
  lemma KeywordsByRole(w: string)
    ensures IsKeyword(w) <==> w in DECLARING + STATING + VALUES || TypeNodes.Builtin(w) || w == "map" || w == "as"
  {}
}
