/** Writing the lexemes of a source with one space between them changes no token. */
module LexRespacing {
  import opened Lexing

  datatype Word = Word(kind: TokenType, lexeme: string)

  /** What is left of tokens when positions, and the end of the file, are dropped. */
  function WordsOf(tokens: seq<Token>): seq<Word> {
    if tokens == [] || tokens[0].kind == EndOfFile then []
    else [Word(tokens[0].kind, tokens[0].lexeme)] + WordsOf(tokens[1..])
  }

  function Join(ws: seq<Word>): string {
    if ws == [] then ""
    else if |ws| == 1 then ws[0].lexeme
    else ws[0].lexeme + (" " + Join(ws[1..]))
  }

  datatype Read = Words(words: seq<Word>) | Error

  /** The words of a text. */
  function WordsIn(s: string): Read
    decreases |s|
  {
    var g := Gap(s, 0);
    if g == |s| then Words([])
    else
      var l := Lex(s[g..]);
      if l.Malformed? then Error
      else
        var rest := WordsIn(s[g..][l.n..]);
        if rest.Error? then Error else Words([Word(l.kind, s[g..][..l.n])] + rest.words)
  }

  lemma Slices(s: string, p: nat, g: nat, n: nat)
    requires p + g + n <= |s|
    ensures s[p..][g..] == s[p + g..] && s[p..][g..][n..] == s[p + g + n..] && s[p..][g..][..n] == s[p + g..p + g + n]
  {}

  lemma WordsOfMore(t: Token, rest: seq<Token>)
    requires t.kind != EndOfFile
    ensures WordsOf([t] + rest) == [Word(t.kind, t.lexeme)] + WordsOf(rest)
  {
    assert ([t] + rest)[1..] == rest;
  }

  lemma NextWordOf(s: string, g: nat)
    requires g == Gap(s, 0) < |s| && Lex(s[g..]).Lexeme?
    ensures var l := Lex(s[g..]);
            var rest := WordsIn(s[g..][l.n..]);
            WordsIn(s) == if rest.Error? then Error else Words([Word(l.kind, s[g..][..l.n])] + rest.words)
  {
    hide Lex, Gap;
  }

  /** The words are those of the tokens. */
  lemma {:induction false} WordsAreTokens(s: string, p: nat)
    requires p <= |s|
    ensures var r := TokensFrom(s, p);
            WordsIn(s[p..]) == if r.LexError? then Error else Words(WordsOf(r.tokens))
    decreases |s| - p, 1
  {
    hide Lex, Gap, LineAt, ColumnAt;
    var i := p + Gap(s[p..], 0);
    Slices(s, p, i - p, 0);
    if i < |s| && Lex(s[i..]).Lexeme? {
      MoreWordsAreTokens(s, p);
    }
  }

  lemma {:induction false} MoreWordsAreTokens(s: string, p: nat)
    requires p <= |s| && p + Gap(s[p..], 0) < |s| && Lex(s[p + Gap(s[p..], 0)..]).Lexeme?
    ensures var r := TokensFrom(s, p);
            WordsIn(s[p..]) == if r.LexError? then Error else Words(WordsOf(r.tokens))
    decreases |s| - p, 0
  {
    hide Lex, Gap, LineAt, ColumnAt, WordsOf, WordsIn, TokensFrom;
    var i := p + Gap(s[p..], 0);
    var l := Lex(s[i..]);
    Slices(s, p, i - p, l.n);
    NextTokenOf(s, p);
    NextWordOf(s[p..], i - p);
    WordsAreTokens(s, i + l.n);
    var rest := TokensFrom(s, i + l.n);
    if rest.Tokens? {
      WordsOfMore(Token(l.kind, s[i..i + l.n], LineAt(s, i), ColumnAt(s, i), i), rest.tokens);
    }
  }

  // ----- a lexeme in front of a space -----

  /** `u` starts like `s`, up to `n`, and then ends or has a space. */
  predicate Cut(s: string, u: string, n: nat) {
    n <= |s| && n <= |u| && s[..n] == u[..n] && (|u| == n || u[n] == ' ')
  }

  lemma CutChars(s: string, u: string, n: nat, i: nat)
    requires Cut(s, u, n)
    ensures i < n ==> Char(u, i) == Char(s, i)
    ensures i == n ==> Char(u, i) == ' ' || Char(u, i) == '\0'
  {
    if i < n {
      assert u[i] == u[..n][i] == s[..n][i];
    }
  }

  lemma {:induction false} EndStays(k: Class, s: string, u: string, i: nat, n: nat)
    requires Cut(s, u, n) && k != White && i <= |s| && End(k, s, i) <= n
    ensures End(k, u, i) == End(k, s, i)
    decreases |s| - i
  {
    CutChars(s, u, n, i);
    if i < |s| && In(k, s[i]) {
      EndStays(k, s, u, i + 1, n);
    }
  }

  lemma FractionStays(s: string, u: string, i: nat, n: nat)
    requires Cut(s, u, n) && i <= |s| && FractionEnd(s, i) <= n
    ensures HasFraction(u, i) == HasFraction(s, i) && FractionEnd(u, i) == FractionEnd(s, i)
  {
    CutChars(s, u, n, i);
    CutChars(s, u, n, i + 1);
    if HasFraction(s, i) {
      EndStays(Digit, s, u, i + 1, n);
    }
  }

  lemma ExponentStays(s: string, u: string, i: nat, n: nat)
    requires Cut(s, u, n) && i <= |s| && ExponentEnd(s, i) <= n
    ensures HasExponent(u, i) == HasExponent(s, i) && ExponentEnd(u, i) == ExponentEnd(s, i)
  {
    CutChars(s, u, n, i);
    CutChars(s, u, n, i + 1);
    if HasExponent(s, i) {
      if Char(s, i + 1) == '+' || Char(s, i + 1) == '-' {
        EndStays(Digit, s, u, i + 2, n);
      } else {
        EndStays(Digit, s, u, i + 1, n);
      }
    }
  }

  lemma NumberStays(s: string, u: string, n: nat)
    requires s != [] && IsDigit(s[0]) && Number(s).0 == n && Cut(s, u, n)
    ensures u != [] && IsDigit(u[0]) && Number(u) == Number(s)
  {
    hide End, FractionEnd, ExponentEnd, HasFraction, HasExponent, Cut;
    RadixStays(s, u, n);
    if Radix(s) != Digit {
      EndStays(Radix(s), s, u, 2, n);
    } else {
      var a := End(Digit, s, 0);
      var b := FractionEnd(s, a);
      EndStays(Digit, s, u, 0, n);
      FractionStays(s, u, a, n);
      ExponentStays(s, u, b, n);
    }
  }

  lemma RadixStays(s: string, u: string, n: nat)
    requires s != [] && IsDigit(s[0]) && Number(s).0 == n && Cut(s, u, n)
    ensures u != [] && u[0] == s[0] && Radix(u) == Radix(s)
  {
    CutChars(s, u, n, 0);
    CutChars(s, u, n, 1);
  }

  lemma {:induction false} StringStays(s: string, u: string, i: nat, n: nat)
    requires Cut(s, u, n) && i <= |s| && StringEnd(s, i) == n && (n == |s| ==> u == s)
    ensures i <= |u| && StringEnd(u, i) == n
    decreases |s| - i
  {
    CutChars(s, u, n, i);
    if n < |s| && s[i] != '"' {
      StringStays(s, u, if s[i] == '\\' then i + 2 else i + 1, n);
    }
  }

  lemma CharStays(s: string, u: string, n: nat)
    requires s != [] && CharScan(s) == Ok(n) && Cut(s, u, n)
    ensures u != [] && CharScan(u) == Ok(n)
  {
    CutChars(s, u, n, 0);
    CutChars(s, u, n, 1);
    CutChars(s, u, n, 2);
    CutChars(s, u, n, 3);
    CutChars(s, u, n, 4);
    CutChars(s, u, n, 5);
  }

  lemma PunctuationStays(s: string, u: string)
    requires s != [] && Cut(s, u, Punctuation(s).1)
    ensures u != [] && Punctuation(u) == Punctuation(s)
  {
    var n := Punctuation(s).1;
    CutChars(s, u, n, 0);
    CutChars(s, u, n, 1);
    CutChars(s, u, n, 2);
  }

  /** A lexeme on its own, or in front of a space, is the same token. */
  lemma LexStays(s: string, u: string)
    requires s != [] && Lex(s).Lexeme? && Cut(s, u, Lex(s).n) && (Lex(s).n == |s| ==> u == s)
    ensures u != [] && Lex(u) == Lex(s)
  {
    hide Number, StringEnd, CharScan, Punctuation, IsKeyword, End;
    var n := Lex(s).n;
    CutChars(s, u, n, 0);
    if IsDigit(s[0]) {
      NumberStays(s, u, n);
    } else if IsAlpha(s[0]) {
      EndStays(Alphanumeric, s, u, 0, n);
    } else if s[0] == '"' {
      StringStays(s, u, 1, n);
    } else if s[0] == '\'' {
      CharStays(s, u, n);
    } else {
      PunctuationStays(s, u);
    }
  }

  // ----- the spaces -----

  /** A token starts here, with no gap. */
  predicate Starts(s: string) {
    s != [] && !In(White, s[0]) && !LineComment(s, 0) && !BlockComment(s, 0)
  }

  lemma NoGap(s: string)
    requires Starts(s)
    ensures Gap(s, 0) == 0
  {}

  lemma OneSpace(s: string)
    requires Starts(s)
    ensures Gap(" " + s, 0) == 1 && (" " + s)[1..] == s
  {
    var t := " " + s;
    assert Char(t, 1) == Char(s, 0) && Char(t, 2) == Char(s, 1);
    assert End(White, t, 1) == 1;
  }

  lemma StartsStays(s: string, u: string, n: nat)
    requires Starts(s) && Cut(s, u, n) && n > 0
    ensures Starts(u)
  {
    CutChars(s, u, n, 0);
    CutChars(s, u, n, 1);
  }

  /** A first word, in front of nothing or of a space and more words. */
  lemma FirstWord(w: Word, u: string, rest: string, ws: seq<Word>)
    requires Starts(u) && Lex(u) == Lexeme(w.kind, |w.lexeme|) && u == w.lexeme + rest && WordsIn(rest) == Words(ws)
    ensures WordsIn(u) == Words([w] + ws)
  {
    hide Lex, Gap;
    NoGap(u);
    assert u[0..] == u && u[|w.lexeme|..] == rest && u[..|w.lexeme|] == w.lexeme;
  }

  lemma SpaceFirst(s: string)
    requires Starts(s)
    ensures WordsIn(" " + s) == WordsIn(s)
  {
    hide Lex, Gap;
    NoGap(s);
    OneSpace(s);
    assert s[0..] == s;
  }

  /** Reading the joined words gives the words. */
  lemma {:induction false} JoinReadsBack(s: string)
    requires WordsIn(s).Words?
    ensures var ws := WordsIn(s).words;
            WordsIn(Join(ws)) == Words(ws) && (ws != [] ==> Starts(Join(ws)))
    decreases |s|
  {
    hide Lex, Gap, Starts;
    var g := Gap(s, 0);
    if g == |s| {
      EmptyHasNoWords();
    } else {
      TokenStarts(s);
      var l, v := Lex(s[g..]), s[g..];
      var more := WordsIn(v[l.n..]).words;
      JoinReadsBack(v[l.n..]);
      AllRead(v, Word(l.kind, v[..l.n]), more);
    }
  }

  lemma TokenStarts(s: string)
    requires Gap(s, 0) < |s|
    ensures Starts(s[Gap(s, 0)..])
  {
    GapStops(s, 0);
    var g := Gap(s, 0);
    assert Char(s[g..], 0) == Char(s, g) && Char(s[g..], 1) == Char(s, g + 1);
  }

  lemma EmptyHasNoWords()
    ensures WordsIn("") == Words([])
  {}

  /** The step of the proof: `v` starts with the first word, `more` are the others. */
  lemma AllRead(v: string, w: Word, more: seq<Word>)
    requires Starts(v) && Lex(v).Lexeme? && w == Word(Lex(v).kind, v[..Lex(v).n])
    requires WordsIn(Join(more)) == Words(more) && (more != [] ==> Starts(Join(more)))
    requires WordsIn(v[Lex(v).n..]) == Words(more)
    ensures var u := Join([w] + more); WordsIn(u) == Words([w] + more) && Starts(u)
  {
    hide Lex, Gap, Starts;
    var n := Lex(v).n;
    var rest := if more == [] then "" else " " + Join(more);
    var u := w.lexeme + rest;
    assert ([w] + more)[1..] == more;
    assert u == Join([w] + more);
    if n == |v| {
      assert v[n..] == "";
      EmptyHasNoWords();
      assert u == v;
    }
    assert Cut(v, u, n) by {
      assert u[..n] == v[..n];
    }
    LexStays(v, u);
    StartsStays(v, u, n);
    if more == [] {
      EmptyHasNoWords();
    } else {
      SpaceFirst(Join(more));
    }
    FirstWord(w, u, rest, more);
  }

  /** For every source: the lexemes of its tokens, written with single spaces between them, are tokens of the
      same types and lexemes again. */
  lemma RespacingIsStable(s: string)
    requires TokensFrom(s, 0).Tokens?
    ensures var ws := WordsOf(TokensFrom(s, 0).tokens);
            var again := TokensFrom(Join(ws), 0);
            again.Tokens? && WordsOf(again.tokens) == ws
  {
    hide WordsIn, Join, WordsOf;
    var ws := WordsOf(TokensFrom(s, 0).tokens);
    assert s[0..] == s && Join(ws)[0..] == Join(ws);
    WordsAreTokens(s, 0);
    JoinReadsBack(s);
    WordsAreTokens(Join(ws), 0);
  }
}
