/** How the operators are written, character by character, and what a reader of the language expects of them: which
    operators group tighter, and which operator a compound assignment combines with. */
module ExprSpelling {
  import opened Options
  import opened ExprSyntax
  import Lexing

  /** The token type of the tokenizer. */
  function KindOf(s: Symbol): Lexing.TokenType {
    match s
    case Plus => Lexing.Plus
    case Minus => Lexing.Minus
    case Star => Lexing.Star
    case Slash => Lexing.Slash
    case Percent => Lexing.Percent
    case Equal => Lexing.Equal
    case PlusEqual => Lexing.PlusEqual
    case MinusEqual => Lexing.MinusEqual
    case StarEqual => Lexing.StarEqual
    case SlashEqual => Lexing.SlashEqual
    case PercentEqual => Lexing.PercentEqual
    case EqualEqual => Lexing.EqualEqual
    case BangEqual => Lexing.BangEqual
    case Less => Lexing.Less
    case LessEqual => Lexing.LessEqual
    case Greater => Lexing.Greater
    case GreaterEqual => Lexing.GreaterEqual
    case AmpAmp => Lexing.AmpAmp
    case PipePipe => Lexing.PipePipe
    case Bang => Lexing.Bang
    case Amp => Lexing.Amp
    case Pipe => Lexing.Pipe
    case Caret => Lexing.Caret
    case Tilde => Lexing.Tilde
    case LessLess => Lexing.LessLess
    case GreaterGreater => Lexing.GreaterGreater
    case LeftParen => Lexing.LeftParen
    case RightParen => Lexing.RightParen
    case LeftBrace => Lexing.LeftBrace
    case RightBrace => Lexing.RightBrace
    case LeftBracket => Lexing.LeftBracket
    case RightBracket => Lexing.RightBracket
    case Comma => Lexing.Comma
    case Semicolon => Lexing.Semicolon
    case Colon => Lexing.Colon
    case Dot => Lexing.Dot
    case Arrow => Lexing.Arrow
    case FatArrow => Lexing.FatArrow
    case At => Lexing.At
  }

  /** How a symbol is written. */
  function Spell(s: Symbol): string {
    Lexing.Spelling(KindOf(s))
  }

  /** How an operator is written in truk and in C. */
  function Sign(op: BinaryOp): string {
    match op
    case Or => "||"
    case And => "&&"
    case Eq => "=="
    case Ne => "!="
    case Lt => "<"
    case Le => "<="
    case Gt => ">"
    case Ge => ">="
    case BitOr => "|"
    case BitXor => "^"
    case BitAnd => "&"
    case Shl => "<<"
    case Shr => ">>"
    case Add => "+"
    case Sub => "-"
    case Mul => "*"
    case Div => "/"
    case Mod => "%"
  }

  function PrefixSign(op: UnaryOp): string {
    match op
    case Not => "!"
    case Neg => "-"
    case BitNot => "~"
    case AddressOf => "&"
    case Deref => "*"
  }

  /** The symbol of a token type, if it is one. */
  function SymbolOf(k: Lexing.TokenType): Option<Symbol> {
    match k
    case Plus => Some(Symbol.Plus)
    case Minus => Some(Symbol.Minus)
    case Star => Some(Symbol.Star)
    case Slash => Some(Symbol.Slash)
    case Percent => Some(Symbol.Percent)
    case Equal => Some(Symbol.Equal)
    case PlusEqual => Some(Symbol.PlusEqual)
    case MinusEqual => Some(Symbol.MinusEqual)
    case StarEqual => Some(Symbol.StarEqual)
    case SlashEqual => Some(Symbol.SlashEqual)
    case PercentEqual => Some(Symbol.PercentEqual)
    case EqualEqual => Some(Symbol.EqualEqual)
    case BangEqual => Some(Symbol.BangEqual)
    case Less => Some(Symbol.Less)
    case LessEqual => Some(Symbol.LessEqual)
    case Greater => Some(Symbol.Greater)
    case GreaterEqual => Some(Symbol.GreaterEqual)
    case AmpAmp => Some(Symbol.AmpAmp)
    case PipePipe => Some(Symbol.PipePipe)
    case Bang => Some(Symbol.Bang)
    case Amp => Some(Symbol.Amp)
    case Pipe => Some(Symbol.Pipe)
    case Caret => Some(Symbol.Caret)
    case Tilde => Some(Symbol.Tilde)
    case LessLess => Some(Symbol.LessLess)
    case GreaterGreater => Some(Symbol.GreaterGreater)
    case LeftParen => Some(Symbol.LeftParen)
    case RightParen => Some(Symbol.RightParen)
    case LeftBrace => Some(Symbol.LeftBrace)
    case RightBrace => Some(Symbol.RightBrace)
    case LeftBracket => Some(Symbol.LeftBracket)
    case RightBracket => Some(Symbol.RightBracket)
    case Comma => Some(Symbol.Comma)
    case Semicolon => Some(Symbol.Semicolon)
    case Colon => Some(Symbol.Colon)
    case Dot => Some(Symbol.Dot)
    case Arrow => Some(Symbol.Arrow)
    case FatArrow => Some(Symbol.FatArrow)
    case At => Some(Symbol.At)
    case _ => None
  }

  lemma SymbolBack(s: Symbol)
    ensures SymbolOf(KindOf(s)) == Some(s)
  {}

  predicate Doubled(s: Symbol) {
    s in {EqualEqual, BangEqual, LessEqual, GreaterEqual, AmpAmp, PipePipe, LessLess, GreaterGreater, PlusEqual, MinusEqual,
          StarEqual, SlashEqual, PercentEqual, Arrow, FatArrow}
  }

  lemma DoubledSpelledBack(s: Symbol)
    requires Doubled(s)
    ensures Spell(s) != "" && Lexing.Punctuation(Spell(s)).0 == KindOf(s)
  {}

  lemma SingleSpelledBack(s: Symbol)
    requires !Doubled(s)
    ensures Spell(s) != "" && Lexing.Punctuation(Spell(s)).0 == KindOf(s)
  {}

  /** The tokenizer reads a spelling as its symbol. */
  lemma SpelledBack(s: Symbol)
    ensures Spell(s) != "" && Lexing.Punctuation(Spell(s)).0 == KindOf(s)
  {
    hide *;
    if Doubled(s) {
      DoubledSpelledBack(s);
    } else {
      SingleSpelledBack(s);
    }
  }

  /** Different symbols are written differently: the tokenizer tells them apart. */
  lemma SpellingsDiffer(s: Symbol, t: Symbol)
    ensures Spell(s) == Spell(t) ==> s == t
  {
    hide KindOf, Spell, SymbolOf;
    SpelledBack(s);
    SpelledBack(t);
    SymbolBack(s);
    SymbolBack(t);
  }

  lemma SignIsSpelled(op: BinaryOp)
    ensures Spell(BinarySymbol(op)) == Sign(op)
  {}

  lemma PrefixIsSpelled(op: UnaryOp)
    ensures Spell(UnarySymbol(op)) == PrefixSign(op)
  {}

  /** The tokens of the operators are those written like them, and no others. */
  lemma OperatorTokens(s: Symbol, op: BinaryOp)
    ensures BinaryOf(Sym(s)) == Some(op) <==> Spell(s) == Sign(op)
  {
    hide Spell, Sign, BinaryOf;
    SignIsSpelled(op);
    SpellingsDiffer(s, BinarySymbol(op));
    BinaryOfSymbol(op);
  }

  lemma PrefixTokens(s: Symbol, op: UnaryOp)
    ensures UnaryOf(Sym(s)) == Some(op) <==> Spell(s) == PrefixSign(op)
  {
    hide Spell, PrefixSign;
    PrefixIsSpelled(op);
    SpellingsDiffer(s, UnarySymbol(op));
  }

  predicate Arithmetic(op: BinaryOp) {
    op == Add || op == Sub || op == Mul || op == Div || op == Mod
  }

  lemma ArithmeticSigns(op: BinaryOp)
    ensures Arithmetic(op) <==> Sign(op) in {"+", "-", "*", "/", "%"}
  {}

  /** The token of a compound assignment. */
  function CompoundSymbol(op: BinaryOp): Symbol
    requires Arithmetic(op)
  {
    match op
    case Add => PlusEqual
    case Sub => MinusEqual
    case Mul => StarEqual
    case Div => SlashEqual
    case Mod => PercentEqual
  }

  lemma CompoundIsSpelled(op: BinaryOp)
    requires Arithmetic(op)
    ensures Spell(CompoundSymbol(op)) == Sign(op) + "="
  {}

  /** A compound assignment is written as the arithmetic operator it combines with, followed by `=`, and every such
      token is one. */
  lemma CompoundTokens(s: Symbol, op: BinaryOp)
    ensures CompoundOf(Sym(s)) == Some(op) <==> Sign(op) in {"+", "-", "*", "/", "%"} && Spell(s) == Sign(op) + "="
  {
    hide Spell, Sign;
    ArithmeticSigns(op);
    if Arithmetic(op) {
      CompoundIsSpelled(op);
      SpellingsDiffer(s, CompoundSymbol(op));
    }
  }

  // ----- the rows of the ladders -----

  /** From the loosest to the tightest: truk (docs/language/grammar.md), and C (section 6.5 of ISO/IEC 9899). */
  const TRUK_ROWS: seq<set<string>> :=
    [{"||"}, {"&&"}, {"==", "!="}, {"<", "<=", ">", ">="}, {"|"}, {"^"}, {"&"}, {"<<", ">>"}, {"+", "-"}, {"*", "/", "%"}]

  const C_ROWS: seq<set<string>> :=
    [{"||"}, {"&&"}, {"|"}, {"^"}, {"&"}, {"==", "!="}, {"<", "<=", ">", ">="}, {"<<", ">>"}, {"+", "-"}, {"*", "/", "%"}]

  function Rows(lad: Ladder): seq<set<string>> {
    if lad.Truk? then TRUK_ROWS else C_ROWS
  }

  /** The level of an operator is the number of its row. */
  lemma LevelIsRow(lad: Ladder, op: BinaryOp, i: nat)
    requires i < |Rows(lad)|
    ensures |Rows(lad)| == 10
    ensures Sign(op) in Rows(lad)[i] <==> Level(lad, op) == i + 1
  {}
}
