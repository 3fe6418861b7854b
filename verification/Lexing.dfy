/** The lexical grammar: how far each kind of token reaches, and what stands between tokens. */
module Lexing {

  datatype TokenType =
    | Keyword | Identifier | IntegerLiteral | FloatLiteral | StringLiteral | CharLiteral
    | Plus | Minus | Star | Slash | Percent | Equal | EqualEqual | BangEqual | Less | LessEqual | Greater | GreaterEqual
    | AmpAmp | PipePipe | Bang | Amp | Pipe | Caret | Tilde | LessLess | GreaterGreater
    | PlusEqual | MinusEqual | StarEqual | SlashEqual | PercentEqual
    | LeftParen | RightParen | LeftBrace | RightBrace | LeftBracket | RightBracket
    | Comma | Semicolon | Colon | Dot | Arrow | FatArrow | DotDotDot | At | EndOfFile | Unknown

  // ----- characters -----

  datatype Class = Digit | HexDigit | BinaryDigit | OctalDigit | Alphanumeric | White

  predicate IsDigit(c: char) { '0' <= c <= '9' }

  predicate IsAlpha(c: char) { 'a' <= c <= 'z' || 'A' <= c <= 'Z' || c == '_' }

  predicate In(k: Class, c: char) {
    match k
    case Digit => IsDigit(c)
    case HexDigit => '0' <= c <= '9' || 'a' <= c <= 'f' || 'A' <= c <= 'F'
    case BinaryDigit => c == '0' || c == '1'
    case OctalDigit => '0' <= c <= '7'
    case Alphanumeric => IsAlpha(c) || IsDigit(c)
    case White => c == ' ' || c == '\t' || c == '\r' || c == '\n'
  }

  /** The character at a position; past the end it reads as NUL. */
  function Char(s: string, i: nat): char {
    if i < |s| then s[i] else '\0'
  }

  /** The first position from `i` on where no character of the class stands. */
  function End(k: Class, s: string, i: nat): (j: nat)
    requires i <= |s|
    ensures i <= j <= |s|
    ensures forall m :: i <= m < j ==> In(k, s[m])
    ensures j < |s| ==> !In(k, s[j])
    decreases |s| - i
  {
    if i < |s| && In(k, s[i]) then End(k, s, i + 1) else i
  }

  // ----- numbers -----

  /** The prefix of a hexadecimal, binary or octal literal. */
  function Radix(s: string): (r: Class) {
    if Char(s, 0) != '0' then Digit
    else if Char(s, 1) == 'x' || Char(s, 1) == 'X' then HexDigit
    else if Char(s, 1) == 'b' || Char(s, 1) == 'B' then BinaryDigit
    else if Char(s, 1) == 'o' || Char(s, 1) == 'O' then OctalDigit
    else Digit
  }

  predicate HasFraction(s: string, i: nat) {
    Char(s, i) == '.' && IsDigit(Char(s, i + 1))
  }

  predicate HasExponent(s: string, i: nat) {
    Char(s, i) == 'e' || Char(s, i) == 'E'
  }

  function FractionEnd(s: string, i: nat): (j: nat)
    requires i <= |s|
    ensures i <= j <= |s|
  {
    if HasFraction(s, i) then End(Digit, s, i + 1) else i
  }

  function ExponentEnd(s: string, i: nat): (j: nat)
    requires i <= |s|
    ensures i <= j <= |s|
  {
    if !HasExponent(s, i) then i
    else if Char(s, i + 1) == '+' || Char(s, i + 1) == '-' then End(Digit, s, i + 2)
    else End(Digit, s, i + 1)
  }

  /** The length of a number and whether it is a float. */
  function Number(s: string): (r: (nat, bool))
    requires s != [] && IsDigit(s[0])
    ensures 1 <= r.0 <= |s|
  {
    if Radix(s) != Digit then (End(Radix(s), s, 2), false)
    else
      var a := End(Digit, s, 0);
      var b := FractionEnd(s, a);
      (ExponentEnd(s, b), HasFraction(s, a) || HasExponent(s, b))
  }

  // ----- strings and characters -----

  /** The end of a string literal whose content starts at `i`: behind the closing quote, or the end of the
      source when there is none. */
  function StringEnd(s: string, i: nat): (j: nat)
    requires i <= |s|
    ensures i <= j <= |s|
    decreases |s| - i
  {
    if i == |s| then i
    else if s[i] == '"' then i + 1
    else if s[i] == '\\' && i + 1 < |s| then StringEnd(s, i + 2)
    else StringEnd(s, i + 1)
  }

  datatype Scan = Ok(n: nat) | Fail(at: nat)

  /** A character literal: its length, or where it is malformed. */
  function CharScan(s: string): (r: Scan)
    requires s != []
    ensures if r.Ok? then 3 <= r.n <= |s| else 1 <= r.at <= |s|
  {
    if |s| == 1 || s[1] == '\'' then Fail(1)
    else
      var e := if s[1] == '\\' then EscapeScan(s) else Ok(2);
      if e.Fail? then e
      else if Char(s, e.n) != '\'' then Fail(e.n)
      else Ok(e.n + 1)
  }

  /** The escape sequence of a character literal, which starts at position 1. */
  function EscapeScan(s: string): (r: Scan)
    requires |s| > 1 && s[1] == '\\'
    ensures if r.Ok? then 3 <= r.n <= |s| else 2 <= r.at <= |s|
  {
    if |s| == 2 then Fail(2)
    else if s[2] in {'n', 't', 'r', '0', '\\', '\'', '"'} then Ok(3)
    else if s[2] != 'x' then Fail(2)
    else if !In(HexDigit, Char(s, 3)) then Fail(3)
    else if !In(HexDigit, Char(s, 4)) then Fail(4)
    else Ok(5)
  }

  // ----- punctuation -----

  /** The type and the length of the operator or punctuation at the start of the text. */
  function Punctuation(s: string): (r: (TokenType, nat))
    requires s != []
    ensures 1 <= r.1 <= |s|
  {
    var d := Char(s, 1);
    match s[0]
    case '+' => if d == '=' then (PlusEqual, 2) else (Plus, 1)
    case '-' => if d == '>' then (Arrow, 2) else if d == '=' then (MinusEqual, 2) else (Minus, 1)
    case '*' => if d == '=' then (StarEqual, 2) else (Star, 1)
    case '/' => if d == '=' then (SlashEqual, 2) else (Slash, 1)
    case '%' => if d == '=' then (PercentEqual, 2) else (Percent, 1)
    case '=' => if d == '=' then (EqualEqual, 2) else if d == '>' then (FatArrow, 2) else (Equal, 1)
    case '!' => if d == '=' then (BangEqual, 2) else (Bang, 1)
    case '<' => if d == '=' then (LessEqual, 2) else if d == '<' then (LessLess, 2) else (Less, 1)
    case '>' => if d == '=' then (GreaterEqual, 2) else if d == '>' then (GreaterGreater, 2) else (Greater, 1)
    case '&' => if d == '&' then (AmpAmp, 2) else (Amp, 1)
    case '|' => if d == '|' then (PipePipe, 2) else (Pipe, 1)
    case '.' => if d == '.' && Char(s, 2) == '.' then (DotDotDot, 3) else (Dot, 1)
    case '^' => (Caret, 1)
    case '~' => (Tilde, 1)
    case '(' => (LeftParen, 1)
    case ')' => (RightParen, 1)
    case '{' => (LeftBrace, 1)
    case '}' => (RightBrace, 1)
    case '[' => (LeftBracket, 1)
    case ']' => (RightBracket, 1)
    case ',' => (Comma, 1)
    case ';' => (Semicolon, 1)
    case ':' => (Colon, 1)
    case '@' => (At, 1)
    case _ => (Unknown, 1)
  }

  /** How each of them is written. */
  function Spelling(t: TokenType): string {
    match t
    case Plus => "+"
    case Minus => "-"
    case Star => "*"
    case Slash => "/"
    case Percent => "%"
    case Equal => "="
    case EqualEqual => "=="
    case BangEqual => "!="
    case Less => "<"
    case LessEqual => "<="
    case Greater => ">"
    case GreaterEqual => ">="
    case AmpAmp => "&&"
    case PipePipe => "||"
    case Bang => "!"
    case Amp => "&"
    case Pipe => "|"
    case Caret => "^"
    case Tilde => "~"
    case LessLess => "<<"
    case GreaterGreater => ">>"
    case PlusEqual => "+="
    case MinusEqual => "-="
    case StarEqual => "*="
    case SlashEqual => "/="
    case PercentEqual => "%="
    case LeftParen => "("
    case RightParen => ")"
    case LeftBrace => "{"
    case RightBrace => "}"
    case LeftBracket => "["
    case RightBracket => "]"
    case Comma => ","
    case Semicolon => ";"
    case Colon => ":"
    case Dot => "."
    case Arrow => "->"
    case FatArrow => "=>"
    case DotDotDot => "..."
    case At => "@"
    case _ => ""
  }

  predicate StartsWith(s: string, t: string) {
    t != [] && t <= s
  }

  lemma FoundIsSpelled(s: string)
    requires s != []
    ensures var (found, n) := Punctuation(s);
            if found == Unknown then n == 1 else StartsWith(s, Spelling(found)) && n == |Spelling(found)|
  {
    var (found, n) := Punctuation(s);
    assert found != Unknown ==> Spelling(found) == s[..n];
  }

  lemma NoLongerSpelling(s: string, t: TokenType)
    requires s != [] && StartsWith(s, Spelling(t))
    ensures var (found, n) := Punctuation(s); found != Unknown && |Spelling(t)| <= n
  {
    var w := Spelling(t);
    assert s[0] == w[0];
    assert |w| > 1 ==> s[1] == w[1];
    assert |w| > 2 ==> s[2] == w[2];
  }

  /** The longest spelling wins, and only a text that starts with none of them is unknown. */
  lemma LongestMatch(s: string, t: TokenType)
    requires s != []
    ensures var (found, n) := Punctuation(s);
            && (if found == Unknown then n == 1 else StartsWith(s, Spelling(found)) && n == |Spelling(found)|)
            && (StartsWith(s, Spelling(t)) ==> found != Unknown && |Spelling(t)| <= n)
  {
    hide Punctuation, Spelling, StartsWith;
    FoundIsSpelled(s);
    if StartsWith(s, Spelling(t)) {
      NoLongerSpelling(s, t);
    }
  }

  // ----- one token -----

  predicate IsKeyword(s: string) {
    s in {"fn", "struct", "enum", "var", "const", "let", "if", "else", "while", "for", "in", "return", "break",
          "continue", "defer", "as", "true", "false", "nil", "import", "cimport", "extern", "shard", "match", "case",
          "i8", "i16", "i32", "i64", "u8", "u16", "u32", "u64", "f32", "f64", "bool", "void", "map"}
  }

  datatype Lexeme = Lexeme(kind: TokenType, n: nat) | Malformed(at: nat)

  /** The token that starts the text. */
  function Lex(s: string): (r: Lexeme)
    requires s != []
    ensures if r.Lexeme? then 1 <= r.n <= |s| && r.kind != EndOfFile else r.at <= |s|
  {
    if IsDigit(s[0]) then
      var (n, float) := Number(s);
      Lexeme(if float then FloatLiteral else IntegerLiteral, n)
    else if IsAlpha(s[0]) then
      var n := End(Alphanumeric, s, 0);
      Lexeme(if IsKeyword(s[..n]) then Keyword else Identifier, n)
    else if s[0] == '"' then Lexeme(StringLiteral, StringEnd(s, 1))
    else if s[0] == '\'' then
      var r := CharScan(s);
      if r.Ok? then Lexeme(CharLiteral, r.n) else Malformed(r.at)
    else
      var (t, n) := Punctuation(s);
      Lexeme(t, n)
  }

  // ----- between tokens -----

  /** The end of the line, which is not part of a comment. */
  function LineEnd(s: string, i: nat): (j: nat)
    requires i <= |s|
    ensures i <= j <= |s| && (forall m :: i <= m < j ==> s[m] != '\n') && (j < |s| ==> s[j] == '\n')
    decreases |s| - i
  {
    if i < |s| && s[i] != '\n' then LineEnd(s, i + 1) else i
  }

  /** Behind the first end mark of a block comment, or the end of the source. */
  function BlockEnd(s: string, i: nat): (j: nat)
    requires i <= |s|
    ensures i <= j <= |s|
    decreases |s| - i
  {
    if i == |s| then i
    else if s[i] == '*' && Char(s, i + 1) == '/' then i + 2
    else BlockEnd(s, i + 1)
  }

  predicate LineComment(s: string, i: nat) {
    Char(s, i) == '/' && Char(s, i + 1) == '/'
  }

  predicate BlockComment(s: string, i: nat) {
    Char(s, i) == '/' && Char(s, i + 1) == '*'
  }

  /** Where the next token, or the end of the source, is. */
  function Gap(s: string, i: nat): (j: nat)
    requires i <= |s|
    ensures i <= j <= |s|
    decreases |s| - i
  {
    var w := End(White, s, i);
    if LineComment(s, w) then Gap(s, LineEnd(s, w + 2))
    else if BlockComment(s, w) then Gap(s, BlockEnd(s, w + 2))
    else w
  }

  /** A gap ends at the end of the source or where neither white space nor a comment starts. */
  lemma {:induction false} GapStops(s: string, i: nat)
    requires i <= |s|
    ensures var j := Gap(s, i);
            && (j < |s| ==> s[j] != ' ' && s[j] != '\t' && s[j] != '\r' && s[j] != '\n')
            && (j + 1 < |s| && s[j] == '/' ==> s[j + 1] != '/' && s[j + 1] != '*')
    decreases |s| - i
  {
    hide LineEnd, BlockEnd, End;
    var w := End(White, s, i);
    if LineComment(s, w) {
      GapStops(s, LineEnd(s, w + 2));
    } else if BlockComment(s, w) {
      GapStops(s, BlockEnd(s, w + 2));
    }
  }

  // ----- all tokens -----

  datatype Token = Token(kind: TokenType, lexeme: string, line: nat, column: nat, index: nat)

  datatype Lexed = Tokens(tokens: seq<Token>) | LexError(line: nat, column: nat)

  /** The line of a position: one more than the newlines before it. */
  function LineAt(s: string, i: nat): (n: nat)
    requires i <= |s|
    ensures n >= 1
  {
    if i == 0 then 1 else LineAt(s, i - 1) + (if s[i - 1] == '\n' then 1 else 0)
  }

  /** Where that line starts. */
  function LineStart(s: string, i: nat): (j: nat)
    requires i <= |s|
    ensures j <= i
  {
    if i == 0 || s[i - 1] == '\n' then i else LineStart(s, i - 1)
  }

  function ColumnAt(s: string, i: nat): nat
    requires i <= |s|
  {
    i - LineStart(s, i) + 1
  }

  /** The tokens from a position on, the end of file included, or the place of the first malformed one. */
  function TokensFrom(s: string, p: nat): (r: Lexed)
    requires p <= |s|
    ensures r.Tokens? ==> r.tokens != []
    decreases |s| - p
  {
    var i := p + Gap(s[p..], 0);
    if i == |s| then Tokens([Token(EndOfFile, "", LineAt(s, i), ColumnAt(s, i), i)])
    else
      var l := Lex(s[i..]);
      if l.Malformed? then LexError(LineAt(s, i + l.at), ColumnAt(s, i + l.at))
      else
        var rest := TokensFrom(s, i + l.n);
        if rest.LexError? then rest
        else Tokens([Token(l.kind, s[i..i + l.n], LineAt(s, i), ColumnAt(s, i), i)] + rest.tokens)
  }

  /** Unfolding by one token. */
  lemma NextTokenOf(s: string, p: nat)
    requires p <= |s| && p + Gap(s[p..], 0) < |s| && Lex(s[p + Gap(s[p..], 0)..]).Lexeme?
    ensures var i := p + Gap(s[p..], 0);
            var l := Lex(s[i..]);
            var rest := TokensFrom(s, i + l.n);
            TokensFrom(s, p) == if rest.LexError? then rest
              else Tokens([Token(l.kind, s[i..i + l.n], LineAt(s, i), ColumnAt(s, i), i)] + rest.tokens)
  {
    hide Lex, Gap, LineAt, ColumnAt;
  }
}
