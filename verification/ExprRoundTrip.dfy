/** Reading back what has been written, with minimal parentheses. */
module ExprRoundTrip {
  import opened Options
  import opened ExprSyntax
  import opened ExprGrammar
  import opened ExprPrint

  // ----- the ladder as one family -----

  predicate IsPostfix(t: Token) {
    t in {Sym(LeftParen), Sym(LeftBracket), Sym(Dot), Sym(Arrow)}
  }

  /** No loop of a level tighter than `level` goes on at `t`, and no lookahead is caught by it. */
  predicate Quiet(lad: Ladder, level: nat, t: Token) {
    && t != Sym(LeftBrace)
    && (BinaryOf(t).Some? ==> Level(lad, BinaryOf(t).value) <= level)
    && (t == Kw(AsKw) ==> CAST <= level)
    && (IsPostfix(t) ==> POSTFIX <= level)
  }

  function ParseAt(lad: Ladder, level: nat, toks: seq<Token>): Parse<Expr>
    requires Terminated(toks) && level <= POSTFIX
  {
    if level == ASSIGNMENT then ParseExpr(lad, toks)
    else if level <= MULTIPLICATIVE then ParseBinary(lad, level, toks)
    else if level == CAST then ParseCast(lad, toks)
    else if level == UNARY then ParseUnary(lad, toks)
    else ParsePostfix(lad, toks)
  }

  /** What the loop of a level makes of an operand already read. */
  function LoopAt(lad: Ladder, level: nat, e: Expr, toks: seq<Token>): Parse<Expr>
    requires Terminated(toks) && 1 <= level <= POSTFIX
  {
    if level <= MULTIPLICATIVE then LoopBinary(lad, level, e, toks)
    else if level == CAST then LoopCast(lad, e, toks)
    else if level == UNARY then Ok(e, toks)
    else LoopPostfix(lad, e, toks)
  }

  lemma Stops(lad: Ladder, level: nat, e: Expr, toks: seq<Token>)
    requires Terminated(toks) && level < POSTFIX && Quiet(lad, level, toks[0])
    ensures LoopAt(lad, level + 1, e, toks) == Ok(e, toks)
  {
    if level + 1 <= MULTIPLICATIVE {
      assert OpAt(lad, level + 1, toks[0]).None?;
    } else if level + 1 == POSTFIX {
      assert !IsPostfix(toks[0]);
      assert PostfixStep(lad, e, toks).None?;
    }
  }

  lemma EndIsQuiet(lad: Ladder, level: nat, t: Token)
    requires EndsExpression(t)
    ensures Quiet(lad, level, t)
  {}

  /** From a level to the one above it. */
  lemma Rise(lad: Ladder, level: nat, toks: seq<Token>, e: Expr, rest: seq<Token>)
    requires Terminated(toks) && Terminated(rest) && 1 <= level < POSTFIX && Quiet(lad, level, rest[0])
    requires ParseAt(lad, level + 1, toks) == LoopAt(lad, level + 1, e, rest)
    requires level == UNARY ==> UnaryOf(toks[0]).None?
    ensures ParseAt(lad, level, toks) == LoopAt(lad, level, e, rest)
  {
    Stops(lad, level, e, rest);
  }

  /** A primary expression at the start of the tokens, read at any level. */
  lemma {:induction false} FromPrimary(lad: Ladder, level: nat, toks: seq<Token>, e: Expr, rest: seq<Token>)
    requires Terminated(toks) && Terminated(rest) && 1 <= level <= POSTFIX && Quiet(lad, level, rest[0])
    requires ParsePrimary(lad, toks) == Ok(e, rest) && UnaryOf(toks[0]).None?
    ensures ParseAt(lad, level, toks) == LoopAt(lad, level, e, rest)
    decreases POSTFIX - level
  {
    if level < POSTFIX {
      FromPrimary(lad, level + 1, toks, e, rest);
      Rise(lad, level, toks, e, rest);
    }
  }

  // ----- sequences of tokens -----

  lemma Tail(t: Token, toks: seq<Token>)
    requires Terminated(toks)
    ensures Terminated([t] + toks) && ([t] + toks)[0] == t && ([t] + toks)[1..] == toks
  {}

  lemma Tail2(t: Token, u: Token, toks: seq<Token>)
    requires Terminated(toks)
    ensures var all := [t, u] + toks;
            Terminated(all) && |all| > 2 && all[0] == t && all[1] == u && all[2..] == toks && all[1..] == [u] + toks
  {}

  lemma Ends(a: seq<Token>, rest: seq<Token>)
    requires Terminated(rest)
    ensures Terminated(a + rest)
  {}

  lemma Cat3(a: seq<Token>, b: seq<Token>, c: seq<Token>, d: seq<Token>)
    ensures a + b + c + d == a + (b + (c + d))
  {}

  lemma Cat4(a: seq<Token>, b: seq<Token>, c: seq<Token>, d: seq<Token>, e: seq<Token>)
    ensures a + b + c + d + e == a + (b + (c + (d + e)))
  {}

  // ----- types -----

  /** A type starts with none of the tokens that the lists around types look for. */
  lemma TypeStart(t: Type, rest: seq<Token>)
    requires TypeOk(t)
    ensures (PrintType(t) + rest) != []
    ensures (PrintType(t) + rest)[0] !in {Sym(RightParen), Sym(RightBracket), Sym(Comma), Eof}
  {}

  lemma NameReadsBack(lad: Ladder, tok: Token, t: Type, rest: seq<Token>)
    requires Terminated(rest)
    requires (t.Primitive? && tok == Kw(PrimitiveKw(t.name))) || (t.Named? && tok == Ident(t.id))
    ensures PrintType(t) == [tok] && Terminated(PrintType(t) + rest) && ParseType(lad, PrintType(t) + rest) == Ok(t, rest)
  {
    Tail(tok, rest);
  }

  lemma PointerStep(lad: Ladder, to: Type, toks: seq<Token>, rest: seq<Token>)
    requires Terminated(toks) && Terminated(rest) && ParseType(lad, toks) == Ok(to, rest)
    ensures Terminated([Sym(Star)] + toks) && ParseType(lad, [Sym(Star)] + toks) == Ok(Pointer(to), rest)
  {
    Tail(Sym(Star), toks);
  }

  lemma PointerShape(to: Type, rest: seq<Token>)
    requires TypeOk(to)
    ensures PrintType(Pointer(to)) + rest == [Sym(Star)] + (PrintType(to) + rest)
  {}

  lemma {:induction false} TypeReadsBack(lad: Ladder, t: Type, rest: seq<Token>)
    requires TypeOk(t) && Terminated(rest)
    ensures Terminated(PrintType(t) + rest) && ParseType(lad, PrintType(t) + rest) == Ok(t, rest)
    decreases t, 1
  {
    hide ParseType, PrintType;
    match t
    case Primitive(name) => NameReadsBack(lad, Kw(PrimitiveKw(name)), t, rest);
    case Named(id) => NameReadsBack(lad, Ident(id), t, rest);
    case Pointer(to) =>
      TypeReadsBack(lad, to, rest);
      PointerStep(lad, to, PrintType(to) + rest, rest);
      PointerShape(to, rest);
    case ArrayOf(size, of) => ArrayReadsBack(lad, size, of, rest);
    case MapOf(k, v) => MapReadsBack(lad, k, v, rest);
    case TupleOf(ts) => TupleReadsBack(lad, ts, rest);
    case Function(ps, r) => FunctionReadsBack(lad, ps, r, rest);
  }

  lemma SizeReadsBack(lad: Ladder, lexeme: string, after: seq<Token>)
    requires Terminated(after) && after[0] == Sym(RightBracket)
    ensures Terminated([Lit(Integer, lexeme)] + after)
    ensures ParseExpr(lad, [Lit(Integer, lexeme)] + after) == Ok(Number(Integer, lexeme), after)
  {
    var n := Lit(Integer, lexeme);
    Tail(n, after);
    assert ParsePrimary(lad, [n] + after) == Ok(Number(Integer, lexeme), after);
    FromPrimary(lad, 1, [n] + after, Number(Integer, lexeme), after);
  }

  lemma SliceStep(lad: Ladder, toks: seq<Token>, t: Type, rest: seq<Token>)
    requires Terminated(toks) && Terminated(rest) && |toks| > 2 && Terminated(toks[2..])
    requires toks[0] == Sym(LeftBracket) && toks[1] == Sym(RightBracket) && ParseType(lad, toks[2..]) == Ok(t, rest)
    ensures ParseType(lad, toks) == Ok(ArrayOf(None, t), rest)
  {}

  lemma ArrayStep(lad: Ladder, toks: seq<Token>, lexeme: string, after: seq<Token>, t: Type, rest: seq<Token>)
    requires Terminated(toks) && Terminated(after) && Terminated(rest) && Terminated(toks[1..]) && Terminated(after[1..])
    requires toks[0] == Sym(LeftBracket) && toks[1] != Sym(RightBracket)
    requires ParseExpr(lad, toks[1..]) == Ok(Number(Integer, lexeme), after) && after[0] == Sym(RightBracket)
    requires ParseType(lad, after[1..]) == Ok(t, rest)
    ensures ParseType(lad, toks) == Ok(ArrayOf(Some(lexeme), t), rest)
  {}

  lemma ArrayShape(size: Option<string>, of: Type, rest: seq<Token>)
    requires TypeOk(of)
    ensures PrintType(ArrayOf(size, of)) + rest ==
            if size.None? then [Sym(LeftBracket), Sym(RightBracket)] + (PrintType(of) + rest)
            else [Sym(LeftBracket), Lit(Integer, size.value)] + ([Sym(RightBracket)] + (PrintType(of) + rest))
  {}

  lemma FunctionShape(ps: Types, r: Type, rest: seq<Token>)
    requires TypesOk(ps) && TypeOk(r)
    ensures PrintType(Function(ps, r)) + rest
            == [Kw(FnKw), Sym(LeftParen)] + (PrintTypes(ps) + ([Sym(RightParen), Sym(Colon)] + (PrintType(r) + rest)))
  {
    var h, a, c := [Kw(FnKw), Sym(LeftParen)], PrintTypes(ps), [Sym(RightParen), Sym(Colon)];
    Cat4(h, a, c, PrintType(r), rest);
  }

  lemma {:induction false} ArrayReadsBack(lad: Ladder, size: Option<string>, of: Type, rest: seq<Token>)
    requires TypeOk(of) && Terminated(rest)
    ensures var toks := PrintType(ArrayOf(size, of)) + rest;
            Terminated(toks) && ParseType(lad, toks) == Ok(ArrayOf(size, of), rest)
    decreases of, 2
  {
    hide ParseType, ParseExpr, ParseArrayType, PrintType;
    ArrayShape(size, of, rest);
    var toks := PrintType(ArrayOf(size, of)) + rest;
    var inner := PrintType(of) + rest;
    TypeReadsBack(lad, of, rest);
    if size.None? {
      Tail2(Sym(LeftBracket), Sym(RightBracket), inner);
      SliceStep(lad, toks, of, rest);
    } else {
      var n := Lit(Integer, size.value);
      var after := [Sym(RightBracket)] + inner;
      Tail(Sym(RightBracket), inner);
      Tail2(Sym(LeftBracket), n, after);
      SizeReadsBack(lad, size.value, after);
      ArrayStep(lad, toks, size.value, after, of, rest);
    }
  }

  lemma MapStep(lad: Ladder, toks: seq<Token>, k: Type, r1: seq<Token>, v: Type, r2: seq<Token>)
    requires Terminated(toks) && |toks| > 2 && Terminated(toks[2..]) && Terminated(r1) && Terminated(r2)
    requires toks[0] == Kw(MapKw) && toks[1] == Sym(LeftBracket) && ParseType(lad, toks[2..]) == Ok(k, r1)
    requires r1[0] == Sym(Comma) && Terminated(r1[1..]) && ParseType(lad, r1[1..]) == Ok(v, r2)
    requires r2[0] == Sym(RightBracket)
    ensures ParseType(lad, toks) == Ok(MapOf(k, v), r2[1..])
  {}

  lemma {:induction false} MapReadsBack(lad: Ladder, k: Type, v: Type, rest: seq<Token>)
    requires TypeOk(k) && TypeOk(v) && Terminated(rest)
    ensures var toks := PrintType(MapOf(k, v)) + rest;
            Terminated(toks) && ParseType(lad, toks) == Ok(MapOf(k, v), rest)
    decreases MapOf(k, v), 0
  {
    hide ParseType, ParseMapType;
    var r2 := [Sym(RightBracket)] + rest;
    var r1 := [Sym(Comma)] + (PrintType(v) + r2);
    Tail(Sym(RightBracket), rest);
    TypeReadsBack(lad, v, r2);
    Tail(Sym(Comma), PrintType(v) + r2);
    TypeReadsBack(lad, k, r1);
    Tail2(Kw(MapKw), Sym(LeftBracket), PrintType(k) + r1);
    MapShape(k, v, rest);
    MapStep(lad, [Kw(MapKw), Sym(LeftBracket)] + (PrintType(k) + r1), k, r1, v, r2);
  }

  lemma MapShape(k: Type, v: Type, rest: seq<Token>)
    requires TypeOk(k) && TypeOk(v)
    ensures PrintType(MapOf(k, v)) + rest
      == [Kw(MapKw), Sym(LeftBracket)] + (PrintType(k) + ([Sym(Comma)] + (PrintType(v) + ([Sym(RightBracket)] + rest))))
  {
    var h, a, c, b, e := [Kw(MapKw), Sym(LeftBracket)], PrintType(k), [Sym(Comma)], PrintType(v), [Sym(RightBracket)];
    Cat3(h + a, c, b, e + rest);
    Cat3(h, a, c + (b + (e + rest)), []);
    assert h + a + c + b + e + rest == h + a + c + b + (e + rest);
  }

  lemma TupleStep(lad: Ladder, toks: seq<Token>, ts: Types, r1: seq<Token>)
    requires Terminated(toks) && Terminated(toks[1..]) && Terminated(r1) && ts.OneType? && ts.tail.OneType?
    requires toks[0] == Sym(LeftParen) && toks[1] != Sym(RightParen) && ParseTypes(lad, toks[1..]) == Ok(ts, r1)
    requires r1[0] == Sym(RightParen)
    ensures ParseType(lad, toks) == Ok(TupleOf(ts), r1[1..])
  {}

  lemma {:induction false} TupleReadsBack(lad: Ladder, ts: Types, rest: seq<Token>)
    requires TypeOk(TupleOf(ts)) && Terminated(rest)
    ensures var toks := PrintType(TupleOf(ts)) + rest;
            Terminated(toks) && ParseType(lad, toks) == Ok(TupleOf(ts), rest)
    decreases TupleOf(ts), 0
  {
    hide ParseType, ParseTupleType, ParseTypes;
    var r1 := [Sym(RightParen)] + rest;
    Tail(Sym(RightParen), rest);
    TypesReadBack(lad, ts, r1);
    Tail(Sym(LeftParen), PrintTypes(ts) + r1);
    TypesStart(ts, r1);
    assert PrintType(TupleOf(ts)) + rest == [Sym(LeftParen)] + (PrintTypes(ts) + r1);
    TupleStep(lad, [Sym(LeftParen)] + (PrintTypes(ts) + r1), ts, r1);
  }

  lemma TypesStart(ts: Types, rest: seq<Token>)
    requires TypesOk(ts) && ts.OneType?
    ensures (PrintTypes(ts) + rest) != [] && (PrintTypes(ts) + rest)[0] != Sym(RightParen)
  {
    TypeStart(ts.head, []);
  }

  lemma FunctionStep(lad: Ladder, toks: seq<Token>, ps: Types, r1: seq<Token>, t: Type, rest: seq<Token>)
    requires Terminated(toks) && |toks| > 2 && Terminated(toks[2..]) && Terminated(r1) && |r1| > 2 && Terminated(r1[2..])
    requires Terminated(rest) && toks[0] == Kw(FnKw) && toks[1] == Sym(LeftParen)
    requires if toks[2] == Sym(RightParen) then ps == NoTypes && r1 == toks[2..]
             else ParseParamTypes(lad, toks[2..]) == Ok(ps, r1)
    requires r1[0] == Sym(RightParen) && r1[1] == Sym(Colon) && ParseType(lad, r1[2..]) == Ok(t, rest)
    ensures ParseType(lad, toks) == Ok(Function(ps, t), rest)
  {
    assert ParseTypeOrBroken(lad, r1[2..]) == Ok(t, rest);
  }

  lemma {:induction false} FunctionReadsBack(lad: Ladder, ps: Types, r: Type, rest: seq<Token>)
    requires TypesOk(ps) && TypeOk(r) && Terminated(rest)
    ensures var toks := PrintType(Function(ps, r)) + rest;
            Terminated(toks) && ParseType(lad, toks) == Ok(Function(ps, r), rest)
    decreases Function(ps, r), 0
  {
    hide ParseType, ParseFunctionType, ParseParamTypes, PrintType;
    FunctionShape(ps, r, rest);
    var last := PrintType(r) + rest;
    var r1 := [Sym(RightParen), Sym(Colon)] + last;
    TypeReadsBack(lad, r, rest);
    Tail2(Sym(RightParen), Sym(Colon), last);
    Ends(PrintTypes(ps), r1);
    Tail2(Kw(FnKw), Sym(LeftParen), PrintTypes(ps) + r1);
    if ps.OneType? {
      ParamsReadBack(lad, ps, r1);
      TypesStart(ps, r1);
    } else {
      assert PrintTypes(ps) + r1 == r1;
    }
    FunctionStep(lad, [Kw(FnKw), Sym(LeftParen)] + (PrintTypes(ps) + r1), ps, r1, r, rest);
  }

  lemma TypesShape(ts: Types, rest: seq<Token>)
    requires TypesOk(ts) && ts.OneType? && ts.tail.OneType?
    ensures PrintTypes(ts) + rest == PrintType(ts.head) + ([Sym(Comma)] + (PrintTypes(ts.tail) + rest))
  {}

  lemma {:induction false} TypesReadBack(lad: Ladder, ts: Types, rest: seq<Token>)
    requires TypesOk(ts) && ts.OneType? && Terminated(rest) && rest[0] == Sym(RightParen)
    ensures Terminated(PrintTypes(ts) + rest) && ParseTypes(lad, PrintTypes(ts) + rest) == Ok(ts, rest)
    decreases ts, 0
  {
    hide ParseType;
    if ts.tail.NoTypes? {
      TypeReadsBack(lad, ts.head, rest);
    } else {
      TypesReadBack(lad, ts.tail, rest);
      Tail(Sym(Comma), PrintTypes(ts.tail) + rest);
      TypeReadsBack(lad, ts.head, [Sym(Comma)] + (PrintTypes(ts.tail) + rest));
      TypesShape(ts, rest);
    }
  }

  lemma {:induction false} ParamsReadBack(lad: Ladder, ts: Types, rest: seq<Token>)
    requires TypesOk(ts) && ts.OneType? && Terminated(rest) && rest[0] == Sym(RightParen)
    ensures Terminated(PrintTypes(ts) + rest) && ParseParamTypes(lad, PrintTypes(ts) + rest) == Ok(ts, rest)
    decreases ts, 0
  {
    hide ParseType;
    if ts.tail.NoTypes? {
      TypeReadsBack(lad, ts.head, rest);
    } else {
      ParamsReadBack(lad, ts.tail, rest);
      Tail(Sym(Comma), PrintTypes(ts.tail) + rest);
      TypeReadsBack(lad, ts.head, [Sym(Comma)] + (PrintTypes(ts.tail) + rest));
      TypesShape(ts, rest);
    }
  }
}
