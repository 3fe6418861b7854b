/** The tokenizer: a position with its line and column, and one scanner for each kind of token. */
module Tokenizer {
  import opened Lexing

  datatype Result<T> = Success(value: T) | Failure(line: nat, column: nat)

  class Tokenizer {
    const data: string
    var pos: nat
    var line: nat
    var column: nat

    ghost predicate Valid()
      reads this
    {
      pos <= |data| && line == LineAt(data, pos) && column == ColumnAt(data, pos)
    }

    constructor (data: string)
      ensures Valid() && this.data == data && pos == 0
    {
      this.data := data;
      pos := 0;
      line := 1;
      column := 1;
    }

    predicate AtEnd()
      reads this
    {
      pos >= |data|
    }

    function Current(): (c: char)
      reads this
      ensures c == Char(data, pos)
    {
      if AtEnd() then '\0' else data[pos]
    }

    function Peek(offset: nat): (c: char)
      reads this
      ensures c == Char(data, pos + offset)
    {
      if pos + offset >= |data| then '\0' else data[pos + offset]
    }

    method Advance()
      requires Valid()
      modifies this
      ensures Valid() && pos == if old(pos) < |data| then old(pos) + 1 else old(pos)
    {
      if AtEnd() {
        return;
      }
      if data[pos] == '\n' {
        line := line + 1;
        column := 1;
      } else {
        column := column + 1;
      }
      pos := pos + 1;
    }

    /** The loops over digits, letters and white space. `start` is where the token or the gap starts. */
    method SkipClass(k: Class, ghost start: nat)
      requires Valid() && start <= pos
      modifies this
      ensures Valid() && pos == start + End(k, data[start..], old(pos) - start)
    {
      ghost var text := data[start..];
      while !AtEnd() && In(k, Current())
        invariant Valid() && start <= pos
        invariant End(k, text, pos - start) == End(k, text, old(pos) - start)
        decreases |data| - pos
      {
        assert data[pos] == text[pos - start];
        Advance();
      }
    }

    // ----- gaps -----

    method SkipLineComment(ghost start: nat)
      requires Valid() && start <= pos && LineComment(data[start..], pos - start)
      modifies this
      ensures Valid() && pos == start + LineEnd(data[start..], old(pos) - start + 2)
    {
      ghost var text := data[start..];
      ghost var i := old(pos) - start;
      assert LineEnd(text, i) == LineEnd(text, i + 1) == LineEnd(text, i + 2);
      while !AtEnd() && Current() != '\n'
        invariant Valid() && start <= pos
        invariant LineEnd(text, pos - start) == LineEnd(text, i)
        decreases |data| - pos
      {
        assert data[pos] == text[pos - start];
        Advance();
      }
    }

    method SkipBlockComment(ghost start: nat)
      requires Valid() && start <= pos && BlockComment(data[start..], pos - start)
      modifies this
      ensures Valid() && pos == start + BlockEnd(data[start..], old(pos) - start + 2)
    {
      ghost var text := data[start..];
      ghost var i := old(pos) - start;
      Advance();
      Advance();
      while !AtEnd()
        invariant Valid() && start <= pos
        invariant BlockEnd(text, pos - start) == BlockEnd(text, i + 2)
        decreases |data| - pos
      {
        assert Char(data, pos) == Char(text, pos - start) && Char(data, pos + 1) == Char(text, pos - start + 1);
        if Current() == '*' && Peek(1) == '/' {
          Advance();
          Advance();
          return;
        }
        Advance();
      }
    }

    /** One comment and the white space behind it. */
    method SkipComment(ghost start: nat)
      requires Valid() && start <= pos && Current() == '/' && (Peek(1) == '/' || Peek(1) == '*')
      requires End(White, data[start..], pos - start) == pos - start
      modifies this
      ensures Valid() && pos > old(pos)
      ensures var text := data[start..];
              && End(White, text, pos - start) == pos - start
              && Gap(text, pos - start) == Gap(text, old(pos) - start)
    {
      hide LineAt, ColumnAt, LineStart, End, Gap, LineEnd, BlockEnd;
      ghost var text := data[start..];
      Shift(data, start, pos - start);
      GapStep(text, pos - start);
      if Peek(1) == '/' {
        SkipLineComment(start);
      } else {
        SkipBlockComment(start);
      }
      GapAfterWhite(text, pos - start);
      SkipClass(White, start);
    }

    /** White space, then comments with white space behind them. */
    method SkipGap()
      requires Valid()
      modifies this
      ensures Valid() && pos == old(pos) + Gap(data[old(pos)..], 0)
    {
      hide LineAt, ColumnAt, LineStart, End, Gap, LineEnd, BlockEnd;
      ghost var start := pos;
      ghost var text := data[start..];
      SkipClass(White, start);
      GapAfterWhite(text, 0);
      while !AtEnd() && Current() == '/' && (Peek(1) == '/' || Peek(1) == '*')
        invariant Valid() && start <= pos
        invariant End(White, text, pos - start) == pos - start
        invariant Gap(text, pos - start) == Gap(text, 0)
        decreases |data| - pos
      {
        SkipComment(start);
      }
      Shift(data, start, pos - start);
      GapStep(text, pos - start);
    }

    // ----- tokens -----

    method ScanNumber(ghost start: nat) returns (float: bool)
      requires Valid() && start == pos < |data| && IsDigit(data[pos])
      modifies this
      ensures Valid() && (pos - start, float) == Number(data[start..])
    {
      hide LineAt, ColumnAt, LineStart, End, FractionEnd, ExponentEnd, HasFraction, HasExponent;
      Shift(data, start, 0);
      float := false;
      if Current() == '0' && (Peek(1) == 'x' || Peek(1) == 'X') {
        ScanDigits(HexDigit, start);
      } else if Current() == '0' && (Peek(1) == 'b' || Peek(1) == 'B') {
        ScanDigits(BinaryDigit, start);
      } else if Current() == '0' && (Peek(1) == 'o' || Peek(1) == 'O') {
        ScanDigits(OctalDigit, start);
      } else {
        SkipClass(Digit, start);
        var fraction := ScanFraction(start);
        var exponent := ScanExponent(start);
        float := fraction || exponent;
      }
    }

    /** The two characters of the prefix and the digits behind it. */
    method ScanDigits(k: Class, ghost start: nat)
      requires Valid() && start == pos && pos + 2 <= |data|
      modifies this
      ensures Valid() && pos == start + End(k, data[start..], 2)
    {
      hide LineAt, ColumnAt, LineStart, End;
      Advance();
      Advance();
      SkipClass(k, start);
    }

    method ScanFraction(ghost start: nat) returns (b: bool)
      requires Valid() && start <= pos
      modifies this
      ensures Valid() && b == HasFraction(data[start..], old(pos) - start)
      ensures pos == start + FractionEnd(data[start..], old(pos) - start)
    {
      hide LineAt, ColumnAt, LineStart, End;
      Shift(data, start, pos - start);
      b := !AtEnd() && Current() == '.' && IsDigit(Peek(1));
      if b {
        Advance();
        SkipClass(Digit, start);
      }
    }

    method ScanExponent(ghost start: nat) returns (b: bool)
      requires Valid() && start <= pos
      modifies this
      ensures Valid() && b == HasExponent(data[start..], old(pos) - start)
      ensures pos == start + ExponentEnd(data[start..], old(pos) - start)
    {
      hide LineAt, ColumnAt, LineStart, End;
      Shift(data, start, pos - start);
      b := !AtEnd() && (Current() == 'e' || Current() == 'E');
      if b {
        Advance();
        if !AtEnd() && (Current() == '+' || Current() == '-') {
          Advance();
        }
        SkipClass(Digit, start);
      }
    }

    method ScanString(ghost start: nat)
      requires Valid() && start == pos < |data|
      modifies this
      ensures Valid() && pos == start + StringEnd(data[start..], 1)
    {
      ghost var text := data[start..];
      Advance();
      while !AtEnd() && Current() != '"'
        invariant Valid() && start < pos
        invariant StringEnd(text, pos - start) == StringEnd(text, 1)
        decreases |data| - pos
      {
        Shift(data, start, pos - start);
        if Current() == '\\' {
          Advance();
          if !AtEnd() {
            Advance();
          }
        } else {
          Advance();
        }
      }
      if !AtEnd() {
        Shift(data, start, pos - start);
        Advance();
      }
    }

    /** False where the source throws; the position is then the one of the error. */
    method ScanChar(ghost start: nat) returns (ok: bool)
      requires Valid() && start == pos < |data| && data[pos] == '\''
      modifies this
      ensures Valid()
      ensures var r := CharScan(data[start..]); ok == r.Ok? && pos == start + if ok then r.n else r.at
    {
      hide LineAt, ColumnAt, LineStart;
      Shift(data, start, 0);
      Advance();
      Shift(data, start, 1);
      if AtEnd() || Current() == '\'' {
        return false;
      }
      if Current() == '\\' {
        ok := ScanEscape(start);
        if !ok {
          return;
        }
      } else {
        Advance();
      }
      Shift(data, start, pos - start);
      if AtEnd() || Current() != '\'' {
        return false;
      }
      Advance();
      ok := true;
    }

    method ScanEscape(ghost start: nat) returns (ok: bool)
      requires Valid() && start + 1 == pos < |data| && data[pos] == '\\'
      modifies this
      ensures Valid()
      ensures var r := EscapeScan(data[start..]); ok == r.Ok? && pos == start + if ok then r.n else r.at
    {
      hide LineAt, ColumnAt, LineStart;
      Shift(data, start, 1);
      Advance();
      Shift(data, start, 2);
      if AtEnd() {
        return false;
      }
      if Current() in {'n', 't', 'r', '0', '\\', '\'', '"'} {
        Advance();
        return true;
      }
      if Current() != 'x' {
        return false;
      }
      Advance();
      Shift(data, start, 3);
      if AtEnd() || !In(HexDigit, Current()) {
        return false;
      }
      Advance();
      Shift(data, start, 4);
      if AtEnd() || !In(HexDigit, Current()) {
        return false;
      }
      Advance();
      ok := true;
    }

    method ScanIdentifier(ghost start: nat) returns (keyword: bool)
      requires Valid() && start == pos < |data|
      modifies this
      ensures Valid()
      ensures var text := data[start..];
              pos == start + End(Alphanumeric, text, 0) && keyword == IsKeyword(text[..pos - start])
    {
      hide LineAt, ColumnAt, LineStart, End, IsKeyword;
      var from := pos;
      SkipClass(Alphanumeric, start);
      assert data[from..pos] == data[start..][..pos - start];
      keyword := IsKeyword(data[from..pos]);
    }

    method ScanPunctuation(ghost start: nat) returns (kind: TokenType)
      requires Valid() && start == pos < |data|
      modifies this
      ensures Valid() && (kind, pos - start) == Punctuation(data[start..])
    {
      hide LineAt, ColumnAt, LineStart;
      Shift(data, start, 0);
      var c := Current();
      var b: bool;
      Advance();
      match c
      case '+' => b := MatchNext('='); kind := if b then PlusEqual else Plus;
      case '-' => kind := Either('>', Arrow, '=', MinusEqual, Minus);
      case '*' => b := MatchNext('='); kind := if b then StarEqual else Star;
      case '/' => b := MatchNext('='); kind := if b then SlashEqual else Slash;
      case '%' => b := MatchNext('='); kind := if b then PercentEqual else Percent;
      case '=' => kind := Either('=', EqualEqual, '>', FatArrow, Equal);
      case '!' => b := MatchNext('='); kind := if b then BangEqual else Bang;
      case '<' => kind := Either('=', LessEqual, '<', LessLess, Less);
      case '>' => kind := Either('=', GreaterEqual, '>', GreaterGreater, Greater);
      case '&' => b := MatchNext('&'); kind := if b then AmpAmp else Amp;
      case '|' => b := MatchNext('|'); kind := if b then PipePipe else Pipe;
      case '^' => kind := Caret;
      case '~' => kind := Tilde;
      case '(' => kind := LeftParen;
      case ')' => kind := RightParen;
      case '{' => kind := LeftBrace;
      case '}' => kind := RightBrace;
      case '[' => kind := LeftBracket;
      case ']' => kind := RightBracket;
      case ',' => kind := Comma;
      case ';' => kind := Semicolon;
      case ':' => kind := Colon;
      case '.' =>
        kind := Dot;
        if Current() == '.' && Peek(1) == '.' {
          Advance();
          Advance();
          kind := DotDotDot;
        }
      case '@' => kind := At;
      case _ => kind := Unknown;
    }

    method Either(c: char, ifC: TokenType, d: char, ifD: TokenType, other: TokenType) returns (kind: TokenType)
      requires Valid() && c != d
      modifies this
      ensures Valid()
      ensures var x := old(pos);
              if x < |data| && data[x] == c then kind == ifC && pos == x + 1
              else if x < |data| && data[x] == d then kind == ifD && pos == x + 1
              else kind == other && pos == x
    {
      var b := MatchNext(c);
      if b {
        return ifC;
      }
      b := MatchNext(d);
      kind := if b then ifD else other;
    }

    /** The next token, or the place of a malformed character literal. */
    method NextToken() returns (r: Result<Token>)
      requires Valid()
      modifies this
      ensures Valid()
      ensures var i := old(pos) + Gap(data[old(pos)..], 0);
              if i == |data| then pos == i && r == Success(Token(EndOfFile, "", LineAt(data, i), ColumnAt(data, i), i))
              else
                var l := Lex(data[i..]);
                if l.Malformed? then
                  pos == i + l.at && r == Failure(LineAt(data, pos), ColumnAt(data, pos))
                else
                  && pos == i + l.n
                  && r == Success(Token(l.kind, data[i..i + l.n], LineAt(data, i), ColumnAt(data, i), i))
    {
      hide LineAt, ColumnAt, LineStart, End, Gap, Number, StringEnd, CharScan, Punctuation, IsKeyword;
      SkipGap();
      if AtEnd() {
        return Success(Token(EndOfFile, "", line, column, pos));
      }
      var startLine, startColumn, start := line, column, pos;
      Shift(data, start, 0);
      var kind := Unknown;
      if IsDigit(Current()) {
        var float := ScanNumber(start);
        kind := if float then FloatLiteral else IntegerLiteral;
      } else if IsAlpha(Current()) {
        var keyword := ScanIdentifier(start);
        kind := if keyword then Keyword else Identifier;
      } else if Current() == '"' {
        ScanString(start);
        kind := StringLiteral;
      } else if Current() == '\'' {
        var ok := ScanChar(start);
        if !ok {
          return Failure(line, column);
        }
        kind := CharLiteral;
      } else {
        kind := ScanPunctuation(start);
      }
      r := Success(Token(kind, data[start..pos], startLine, startColumn, start));
    }

    /** An operator of one character that `=` may extend. */
    method MatchNext(c: char) returns (b: bool)
      requires Valid()
      modifies this
      ensures Valid() && b == (old(pos) < |data| && data[old(pos)] == c) && pos == if b then old(pos) + 1 else old(pos)
    {
      b := !AtEnd() && Current() == c;
      if b {
        Advance();
      }
    }
  }

  /** All tokens up to the end of the file, as the parser collects them before it starts. */
  method Tokenize(data: string) returns (r: Lexed)
    ensures r == TokensFrom(data, 0)
  {
    hide Lex, Gap, LineAt, ColumnAt;
    var t := new Tokenizer(data);
    var tokens: seq<Token> := [];
    while true
      invariant t.Valid() && t.data == data
      invariant TokensFrom(data, 0) == Before(tokens, TokensFrom(data, t.pos))
      decreases |data| - t.pos
    {
      ghost var p := t.pos;
      ghost var before := tokens;
      var next := t.NextToken();
      if next.Failure? {
        return LexError(next.line, next.column);
      }
      tokens := tokens + [next.value];
      if next.value.kind == EndOfFile {
        return Tokens(tokens);
      }
      BeforeBefore(before, next.value, TokensFrom(data, t.pos));
    }
  }

  /** Tokens already collected, in front of what is still to come. */
  function Before(tokens: seq<Token>, rest: Lexed): Lexed {
    if rest.LexError? then rest else Tokens(tokens + rest.tokens)
  }

  lemma BeforeBefore(tokens: seq<Token>, t: Token, rest: Lexed)
    ensures Before(tokens, Before([t], rest)) == Before(tokens + [t], rest)
  {
    if rest.Tokens? {
      assert tokens + ([t] + rest.tokens) == tokens + [t] + rest.tokens;
    }
  }

  /** Positions in a source and in what is left of it. */
  lemma Shift(s: string, start: nat, i: nat)
    requires start + i <= |s|
    ensures var t := s[start..];
            && Char(t, i) == Char(s, start + i) && Char(t, i + 1) == Char(s, start + i + 1)
            && Char(t, i + 2) == Char(s, start + i + 2)
            && |t| == |s| - start
  {}

  lemma GapStep(s: string, w: nat)
    requires w <= |s| && End(White, s, w) == w
    ensures Gap(s, w) == if LineComment(s, w) then Gap(s, LineEnd(s, w + 2))
                         else if BlockComment(s, w) then Gap(s, BlockEnd(s, w + 2))
                         else w
  {}

  lemma GapAfterWhite(s: string, i: nat)
    requires i <= |s|
    ensures Gap(s, i) == Gap(s, End(White, s, i)) && End(White, s, End(White, s, i)) == End(White, s, i)
  {}
}
