/** Where the grammar gives up, goes on with a broken type, or decides by lookahead. */
module ExprErrors {
  import opened Options
  import opened ExprSyntax
  import opened ExprGrammar
  import opened ExprPrint
  import opened ExprRoundTrip
  import opened ExprMinimal
  import opened ExprSpelling
  import opened ExprLaws

  // ----- struct literals -----

  /** A name and `{}` are a struct literal in front of a token that ends an expression, and a name in front of a block
      otherwise. */
  lemma EmptyBraces(lad: Ladder, name: string, t: Token, rest: seq<Token>)
    requires Terminated([t] + rest)
    ensures var toks := [Ident(name), Sym(LeftBrace), Sym(RightBrace)] + ([t] + rest);
            && Terminated(toks)
            && ParsePrimary(lad, toks) ==
               if t == Eof || (t.Sym? && Spell(t.s) in {";", ",", ")", "]", "}"})
               then Ok(StructLiteral(name, NoFields), [t] + rest)
               else Ok(Name(name), [Sym(LeftBrace), Sym(RightBrace)] + ([t] + rest))
  {
    hide Spell, EndsExpression;
    Terminators(t);
    var toks := [Ident(name), Sym(LeftBrace), Sym(RightBrace)] + ([t] + rest);
    assert toks[0] == Ident(name) && toks[1] == Sym(LeftBrace) && toks[2] == Sym(RightBrace) && toks[3] == t;
    assert toks[3..] == [t] + rest && toks[1..] == [Sym(LeftBrace), Sym(RightBrace)] + ([t] + rest);
  }

  /** A name, `{` and another name are the start of a struct literal in front of `:`; in front of `}` or `,` they are one
      that lacks its value; otherwise the brace opens a block. */
  lemma NameBehindBrace(lad: Ladder, name: string, f: string, t: Token, rest: seq<Token>)
    requires Terminated([t] + rest) && t != Sym(Colon)
    ensures var toks := [Ident(name), Sym(LeftBrace), Ident(f)] + ([t] + rest);
            && Terminated(toks)
            && ParsePrimary(lad, toks) ==
               if t == Sym(RightBrace) || t == Sym(Comma) then Err([t] + rest)
               else Ok(Name(name), [Sym(LeftBrace), Ident(f)] + ([t] + rest))
  {
    var toks := [Ident(name), Sym(LeftBrace), Ident(f)] + ([t] + rest);
    assert toks[0] == Ident(name) && toks[1] == Sym(LeftBrace) && toks[2] == Ident(f) && toks[3] == t;
    assert toks[1..] == [Sym(LeftBrace), Ident(f)] + ([t] + rest) && toks[2..] == [Ident(f)] + ([t] + rest);
    assert toks[2..][1..] == [t] + rest;
    assert ParseFields(lad, toks[2..]) == Err([t] + rest);
  }

  // ----- types -----

  /** A function type without a return type returns nothing. */
  lemma NoReturnType(lad: Ladder, ps: Types, rest: seq<Token>)
    requires TypesOk(ps) && Terminated(rest) && rest[0] != Sym(Colon)
    ensures var without := [Kw(FnKw), Sym(LeftParen)] + (PrintTypes(ps) + ([Sym(RightParen)] + rest));
            var with := PrintType(Function(ps, Primitive("void"))) + rest;
            && Terminated(without) && Terminated(with)
            && ParseType(lad, without) == ParseType(lad, with) == Ok(Function(ps, Primitive("void")), rest)
  {
    hide ParseType, ParseParamTypes, PrintType, ParseFunctionType;
    TypeReadsBack(lad, Function(ps, Primitive("void")), rest);
    var r1 := [Sym(RightParen)] + rest;
    Tail(Sym(RightParen), rest);
    Ends(PrintTypes(ps), r1);
    Tail2(Kw(FnKw), Sym(LeftParen), PrintTypes(ps) + r1);
    if ps.OneType? {
      ParamsReadBack(lad, ps, r1);
      TypesStart(ps, r1);
    } else {
      assert PrintTypes(ps) + r1 == r1;
    }
    NoReturnStep(lad, [Kw(FnKw), Sym(LeftParen)] + (PrintTypes(ps) + r1), ps, r1);
  }

  lemma NoReturnStep(lad: Ladder, toks: seq<Token>, ps: Types, r1: seq<Token>)
    requires Terminated(toks) && |toks| > 2 && Terminated(toks[2..]) && Terminated(r1) && |r1| > 1
    requires toks[0] == Kw(FnKw) && toks[1] == Sym(LeftParen)
    requires if toks[2] == Sym(RightParen) then ps == NoTypes && r1 == toks[2..]
             else ParseParamTypes(lad, toks[2..]) == Ok(ps, r1)
    requires r1[0] == Sym(RightParen) && r1[1] != Sym(Colon)
    ensures ParseType(lad, toks) == Ok(Function(ps, Primitive("void")), r1[1..])
  {
    hide ParseParamTypes;
  }

  /** A tuple type has at least two elements: `()` and `(T)` are rejected behind the parenthesis. */
  lemma ShortTuples(lad: Ladder, t: Type, rest: seq<Token>)
    requires TypeOk(t) && Terminated(rest)
    ensures var none := [Sym(LeftParen), Sym(RightParen)] + rest;
            var one := [Sym(LeftParen)] + (PrintType(t) + ([Sym(RightParen)] + rest));
            && Terminated(none) && Terminated(one)
            && ParseType(lad, none) == Err(rest) && ParseType(lad, one) == Err(rest)
  {
    hide ParseTypes, PrintType;
    Tail2(Sym(LeftParen), Sym(RightParen), rest);
    var r1 := [Sym(RightParen)] + rest;
    Tail(Sym(RightParen), rest);
    OneTypePrint(t);
    TypesReadBack(lad, OneType(t, NoTypes), r1);
    TypeStart(t, r1);
    Tail(Sym(LeftParen), PrintType(t) + r1);
  }

  lemma OneTypePrint(t: Type)
    requires TypeOk(t)
    ensures TypesOk(OneType(t, NoTypes)) && PrintTypes(OneType(t, NoTypes)) == PrintType(t)
  {}

  /** The size of an array is one integer literal; any other expression is rejected at the bracket behind it. */
  lemma ArraySizes(lad: Ladder, n: Expr, t: Type, rest: seq<Token>)
    requires ExprOk(n) && TypeOk(t) && Terminated(rest)
    ensures var close := [Sym(RightBracket)] + (PrintType(t) + rest);
            var toks := [Sym(LeftBracket)] + (Print(lad, n) + close);
            && Terminated(toks) && Terminated(close)
            && ParseType(lad, toks) ==
               if n.Number? && n.kind == Integer then Ok(ArrayOf(Some(n.lexeme), t), rest) else Err(close)
  {
    hide ParseExpr, Print, PrintType, ParseType;
    var after := PrintType(t) + rest;
    var close := [Sym(RightBracket)] + after;
    TypeReadsBack(lad, t, rest);
    Tail(Sym(RightBracket), after);
    ExprReadsBack(lad, n, close);
    ExprStart(lad, ASSIGNMENT, n);
    assert PrintAt(lad, ASSIGNMENT, n) == Print(lad, n);
    Tail(Sym(LeftBracket), Print(lad, n) + close);
    SizeStep(lad, [Sym(LeftBracket)] + (Print(lad, n) + close), n, close, t, rest);
  }

  lemma SizeStep(lad: Ladder, toks: seq<Token>, n: Expr, close: seq<Token>, t: Type, rest: seq<Token>)
    requires Terminated(toks) && Terminated(toks[1..]) && Terminated(close) && Terminated(close[1..]) && Terminated(rest)
    requires toks[0] == Sym(LeftBracket) && toks[1] != Sym(RightBracket) && close[0] == Sym(RightBracket)
    requires ParseExpr(lad, toks[1..]) == Ok(n, close) && ParseType(lad, close[1..]) == Ok(t, rest)
    ensures ParseType(lad, toks) == if n.Number? && n.kind == Integer then Ok(ArrayOf(Some(n.lexeme), t), rest) else Err(close)
  {
    hide ParseExpr;
  }

  /** What no type starts with. */
  predicate StartsNoType(t: Token) {
    match t
    case Sym(s) => s != Star && s != LeftBracket && s != LeftParen
    case Kw(w) => w != FnKw && w != MapKw && !w.PrimitiveKw?
    case Ident(_) => false
    case _ => true
  }

  /** A cast to something that is no type keeps its operand and reads nothing behind the `as`. */
  lemma BrokenCast(lad: Ladder, e: Expr, rest: seq<Token>)
    requires ExprOk(e) && Terminated(rest) && StartsNoType(rest[0]) && rest[0] != Kw(AsKw)
    ensures var toks := PrintAt(lad, CAST, e) + ([Kw(AsKw)] + rest);
            Terminated(toks) && ParseCast(lad, toks) == Ok(Cast(e, Broken), rest)
  {
    hide ParseCast, PrintAt;
    Tail(Kw(AsKw), rest);
    ReadsBack(lad, CAST, e, [Kw(AsKw)] + rest);
    assert ParseType(lad, rest) == Err(rest);
    assert LoopCast(lad, e, [Kw(AsKw)] + rest) == LoopCast(lad, Cast(e, Broken), rest) == Ok(Cast(e, Broken), rest);
  }

  /** The right operand of `*`, `/` and `%` is no cast: in `a * b as T` the `as` is left unread. */
  lemma CastBehindProduct(lad: Ladder, op: BinaryOp, a: string, b: string, rest: seq<Token>)
    requires Sign(op) in {"*", "/", "%"} && Terminated(rest)
    ensures var toks := [Ident(a), Sym(BinarySymbol(op)), Ident(b)] + ([Kw(AsKw)] + rest);
            && Terminated(toks)
            && ParseExpr(lad, toks) == Ok(Binary(op, Name(a), Name(b)), [Kw(AsKw)] + rest)
  {
    hide ParseExpr, ParseBinary, LoopBinary, ParseRight, Sign, BinarySymbol;
    var cast := [Kw(AsKw)] + rest;
    Tail(Kw(AsKw), rest);
    ProductLevel(op);
    RightName(lad, b, cast);
    BinaryStep(lad, op, Name(a), [Ident(b)] + cast, Name(b), cast);
    var tail := [Sym(BinarySymbol(op))] + ([Ident(b)] + cast);
    LeftName(lad, op, a, tail);
    var toks := [Ident(a), Sym(BinarySymbol(op)), Ident(b)] + cast;
    assert [Ident(a)] + tail == toks;
    UpToCast(lad, MULTIPLICATIVE, toks, Binary(op, Name(a), Name(b)), cast);
    WholeExpr(lad, toks, Binary(op, Name(a), Name(b)), cast);
  }

  lemma RightName(lad: Ladder, b: string, cast: seq<Token>)
    requires Terminated(cast) && cast[0] == Kw(AsKw)
    ensures Terminated([Ident(b)] + cast) && ParseRight(lad, MULTIPLICATIVE, [Ident(b)] + cast) == Ok(Name(b), cast)
  {
    hide ParseUnary, ParsePrimary;
    NameAlone(lad, b, cast);
    FromPrimary(lad, UNARY, [Ident(b)] + cast, Name(b), cast);
  }

  lemma LeftName(lad: Ladder, op: BinaryOp, a: string, tail: seq<Token>)
    requires Terminated(tail) && tail[0] == Sym(BinarySymbol(op)) && Level(lad, op) == MULTIPLICATIVE
    ensures Terminated([Ident(a)] + tail)
    ensures ParseBinary(lad, MULTIPLICATIVE, [Ident(a)] + tail) == LoopBinary(lad, MULTIPLICATIVE, Name(a), tail)
  {
    hide ParseBinary, LoopBinary, ParsePrimary, Quiet, BinarySymbol;
    OperatorIsQuiet(lad, op);
    NoBrace(op);
    NameAlone(lad, a, tail);
    FromPrimary(lad, MULTIPLICATIVE, [Ident(a)] + tail, Name(a), tail);
  }

  lemma NoBrace(op: BinaryOp)
    ensures BinarySymbol(op) != LeftBrace
  {}

  lemma ProductLevel(op: BinaryOp)
    requires Sign(op) in {"*", "/", "%"}
    ensures Level(Truk, op) == Level(C, op) == MULTIPLICATIVE
  {}

  lemma NameAlone(lad: Ladder, a: string, rest: seq<Token>)
    requires Terminated(rest) && rest[0] != Sym(LeftBrace)
    ensures Terminated([Ident(a)] + rest) && ParsePrimary(lad, [Ident(a)] + rest) == Ok(Name(a), rest)
  {
    Tail(Ident(a), rest);
  }

  /** No loop of a binary level goes on at `as`. */
  lemma {:induction false} UpToCast(lad: Ladder, n: nat, toks: seq<Token>, e: Expr, cast: seq<Token>)
    requires Terminated(toks) && Terminated(cast) && cast[0] == Kw(AsKw) && 1 <= n <= MULTIPLICATIVE
    requires ParseBinary(lad, n, toks) == LoopBinary(lad, n, e, cast)
    ensures ParseBinary(lad, 1, toks) == Ok(e, cast)
    decreases n
  {
    assert LoopBinary(lad, n, e, cast) == Ok(e, cast);
    if n > 1 {
      hide ParseUnary, ParseCast;
      assert ParseBinary(lad, n - 1, toks) == LoopBinary(lad, n - 1, e, cast);
      UpToCast(lad, n - 1, toks, e, cast);
    }
  }

  lemma WholeExpr(lad: Ladder, toks: seq<Token>, e: Expr, rest: seq<Token>)
    requires Terminated(toks) && Terminated(rest) && rest[0] != Sym(Equal) && CompoundOf(rest[0]).None?
    requires ParseBinary(lad, 1, toks) == Ok(e, rest)
    ensures ParseExpr(lad, toks) == Ok(e, rest)
  {
    hide ParseBinary;
  }

  // ----- what is not closed -----

  /** An expression in parentheses, an index and an array literal are rejected at a token that ends an expression but is
      not the closing one. */
  lemma Unclosed(lad: Ladder, o: Expr, e: Expr, rest: seq<Token>)
    requires ExprOk(e) && Terminated(rest) && EndsExpression(rest[0])
    ensures Terminated([Sym(LeftParen)] + (Print(lad, e) + rest)) && Terminated([Sym(LeftBracket)] + (Print(lad, e) + rest))
    ensures ParsePrimary(lad, [Sym(LeftParen)] + (Print(lad, e) + rest))
            == if rest[0] == Sym(RightParen) then Ok(e, rest[1..]) else Err(rest)
    ensures LoopPostfix(lad, o, [Sym(LeftBracket)] + (Print(lad, e) + rest))
            == if rest[0] == Sym(RightBracket) then LoopPostfix(lad, Index(o, e), rest[1..]) else Err(rest)
  {
    hide ParseExpr, Print;
    ExprReadsBack(lad, e, rest);
    Tail(Sym(LeftParen), Print(lad, e) + rest);
    Tail(Sym(LeftBracket), Print(lad, e) + rest);
  }

  /** Behind a point or an arrow stands a name. */
  lemma NoMember(lad: Ladder, o: Expr, s: Symbol, rest: seq<Token>)
    requires Spell(s) in {".", "->"} && Terminated(rest) && !rest[0].Ident?
    ensures Terminated([Sym(s)] + rest) && LoopPostfix(lad, o, [Sym(s)] + rest) == Err(rest)
  {
    hide Spell;
    MemberSpellings();
    SpellingsDiffer(s, Dot);
    SpellingsDiffer(s, Arrow);
    Tail(Sym(s), rest);
  }

  lemma MemberSpellings()
    ensures Spell(Dot) == "." && Spell(Arrow) == "->"
  {}
}
