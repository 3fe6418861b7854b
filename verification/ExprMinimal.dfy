/** An expression written with only the parentheses that the ladder needs is read back as itself. */
module ExprMinimal {
  import opened ExprSyntax
  import opened ExprGrammar
  import opened ExprPrint
  import opened ExprRoundTrip

  // ----- single steps of the parser -----

  lemma AssignStep(lad: Ladder, toks: seq<Token>, t: Expr, r1: seq<Token>, v: Expr, rest: seq<Token>)
    requires Terminated(toks) && Terminated(r1) && |r1| > 1 && Terminated(r1[1..]) && Terminated(rest)
    requires ParseBinary(lad, 1, toks) == Ok(t, r1) && r1[0] == Sym(Equal) && ParseExpr(lad, r1[1..]) == Ok(v, rest)
    ensures ParseExpr(lad, toks) == Ok(Assign(t, v), rest)
  {}

  lemma PlainStep(lad: Ladder, toks: seq<Token>, e: Expr, rest: seq<Token>)
    requires Terminated(toks) && Terminated(rest) && EndsExpression(rest[0])
    requires ParseBinary(lad, 1, toks) == LoopBinary(lad, 1, e, rest)
    ensures ParseExpr(lad, toks) == Ok(e, rest)
  {
    hide ParseBinary;
    assert LoopBinary(lad, 1, e, rest) == Ok(e, rest);
  }

  lemma BinaryStep(lad: Ladder, op: BinaryOp, l: Expr, toks: seq<Token>, r: Expr, rest: seq<Token>)
    requires Terminated(toks) && Terminated(rest) && ParseRight(lad, Level(lad, op), toks) == Ok(r, rest)
    ensures Terminated([Sym(BinarySymbol(op))] + toks)
    ensures LoopBinary(lad, Level(lad, op), l, [Sym(BinarySymbol(op))] + toks)
            == LoopBinary(lad, Level(lad, op), Binary(op, l, r), rest)
  {
    hide ParseRight;
    Tail(Sym(BinarySymbol(op)), toks);
    BinaryOfSymbol(op);
  }

  lemma CastStep(lad: Ladder, e: Expr, toks: seq<Token>, t: Type, rest: seq<Token>)
    requires Terminated(toks) && Terminated(rest) && ParseType(lad, toks) == Ok(t, rest)
    ensures Terminated([Kw(AsKw)] + toks)
    ensures LoopCast(lad, e, [Kw(AsKw)] + toks) == LoopCast(lad, Cast(e, t), rest)
  {
    Tail(Kw(AsKw), toks);
  }

  lemma UnaryStep(lad: Ladder, op: UnaryOp, toks: seq<Token>, e: Expr, rest: seq<Token>)
    requires Terminated(toks) && Terminated(rest) && ParseUnary(lad, toks) == Ok(e, rest)
    ensures Terminated([Sym(UnarySymbol(op))] + toks)
    ensures ParseUnary(lad, [Sym(UnarySymbol(op))] + toks) == Ok(Unary(op, e), rest)
  {
    Tail(Sym(UnarySymbol(op)), toks);
  }

  lemma CallStep(lad: Ladder, f: Expr, args: Args, toks: seq<Token>, r1: seq<Token>)
    requires Terminated(toks) && Terminated(r1) && |r1| > 1 && r1[0] == Sym(RightParen)
    requires if args.NoArgs? then r1 == toks else toks[0] != Sym(RightParen) && ParseArgs(lad, toks) == Ok(args, r1)
    ensures Terminated([Sym(LeftParen)] + toks)
    ensures LoopPostfix(lad, f, [Sym(LeftParen)] + toks) == LoopPostfix(lad, Call(f, args), r1[1..])
  {
    hide ParseArgs;
    Tail(Sym(LeftParen), toks);
    assert ([Sym(LeftParen)] + toks)[2..] == toks[1..];
  }

  lemma IndexStep(lad: Ladder, o: Expr, toks: seq<Token>, i: Expr, r1: seq<Token>)
    requires Terminated(toks) && Terminated(r1) && |r1| > 1 && r1[0] == Sym(RightBracket) && ParseExpr(lad, toks) == Ok(i, r1)
    ensures Terminated([Sym(LeftBracket)] + toks)
    ensures LoopPostfix(lad, o, [Sym(LeftBracket)] + toks) == LoopPostfix(lad, Index(o, i), r1[1..])
  {
    hide ParseExpr;
    Tail(Sym(LeftBracket), toks);
  }

  lemma MemberStep(lad: Ladder, o: Expr, field: string, rest: seq<Token>)
    requires Terminated(rest)
    ensures Terminated([Sym(Dot), Ident(field)] + rest)
    ensures LoopPostfix(lad, o, [Sym(Dot), Ident(field)] + rest) == LoopPostfix(lad, Member(o, field), rest)
  {
    Tail2(Sym(Dot), Ident(field), rest);
  }

  lemma ParenStep(lad: Ladder, toks: seq<Token>, e: Expr, rest: seq<Token>)
    requires Terminated(toks) && Terminated(rest) && ParseExpr(lad, toks) == Ok(e, [Sym(RightParen)] + rest)
    ensures Terminated([Sym(LeftParen)] + toks)
    ensures ParsePrimary(lad, [Sym(LeftParen)] + toks) == Ok(e, rest)
  {
    hide ParseExpr;
    Tail(Sym(LeftParen), toks);
    Tail(Sym(RightParen), rest);
  }

  lemma ArrayLiteralStep(lad: Ladder, elems: Args, toks: seq<Token>, rest: seq<Token>)
    requires Terminated(toks) && Terminated(rest)
    requires if elems.NoArgs? then toks == [Sym(RightBracket)] + rest
             else toks[0] != Sym(RightBracket) && ParseElements(lad, toks) == Ok(elems, [Sym(RightBracket)] + rest)
    ensures Terminated([Sym(LeftBracket)] + toks)
    ensures ParsePrimary(lad, [Sym(LeftBracket)] + toks) == Ok(ArrayLiteral(elems), rest)
  {
    hide ParseElements;
    Tail(Sym(LeftBracket), toks);
    Tail(Sym(RightBracket), rest);
    assert elems.NoArgs? ==> ([Sym(LeftBracket)] + toks)[2..] == rest;
  }

  lemma StructStep(lad: Ladder, name: string, fields: Fields, toks: seq<Token>, rest: seq<Token>)
    requires Terminated(toks) && Terminated(rest)
    requires fields.NoFields? ==> toks == [Sym(RightBrace)] + rest && EndsExpression(rest[0])
    requires fields.Field? ==> |toks| > 1 && toks[0].Ident? && toks[1] == Sym(Colon)
    requires fields.Field? ==> ParseFields(lad, toks) == Ok(fields, [Sym(RightBrace)] + rest)
    ensures Terminated([Ident(name), Sym(LeftBrace)] + toks)
    ensures ParsePrimary(lad, [Ident(name), Sym(LeftBrace)] + toks) == Ok(StructLiteral(name, fields), rest)
  {
    hide ParseFields;
    var all := [Ident(name), Sym(LeftBrace)] + toks;
    Tail2(Ident(name), Sym(LeftBrace), toks);
    Tail(Sym(RightBrace), rest);
    assert all[2] == toks[0] && all[3] == toks[1];
    assert StructAhead(all);
    assert fields.NoFields? ==> all[3..] == rest;
    assert ParsePrimary(lad, all) == ParseStruct(lad, all);
  }

  // ----- how written expressions start -----

  predicate Starter(t: Token) {
    t !in {Sym(RightParen), Sym(RightBracket), Sym(RightBrace), Sym(Comma), Sym(At), Eof}
  }

  lemma {:induction false} ExprStart(lad: Ladder, level: nat, e: Expr)
    requires ExprOk(e)
    ensures PrintAt(lad, level, e) != [] && Starter(PrintAt(lad, level, e)[0])
    decreases e
  {
    if Precedence(lad, e) >= level {
      match e
      case Binary(op, l, r) => ExprStart(lad, Level(lad, op), l);
      case Cast(x, t) => ExprStart(lad, CAST, x);
      case Call(f, _) => ExprStart(lad, POSTFIX, f);
      case Index(o, _) => ExprStart(lad, POSTFIX, o);
      case Member(o, _) => ExprStart(lad, POSTFIX, o);
      case Assign(t, _) => ExprStart(lad, 1, t);
      case _ =>
    }
  }

  /** What is written at the postfix level does not start with a prefix operator. */
  lemma {:induction false} PostfixStart(lad: Ladder, e: Expr)
    requires ExprOk(e)
    ensures PrintAt(lad, POSTFIX, e) != [] && UnaryOf(PrintAt(lad, POSTFIX, e)[0]).None?
    decreases e
  {
    if Precedence(lad, e) >= POSTFIX {
      match e
      case Call(f, _) => PostfixStart(lad, f);
      case Index(o, _) => PostfixStart(lad, o);
      case Member(o, _) => PostfixStart(lad, o);
      case _ =>
    }
  }

  // ----- the round trip -----

  /** The order in which the levels of one expression are proved. */
  function Rank(lad: Ladder, level: nat, e: Expr): nat
    requires level <= POSTFIX
  {
    if level > Precedence(lad, e) then 40 else 20 - level
  }

  /** Written at a level, an expression is what the loop of that level starts with. */
  lemma {:induction false} ReadsBack(lad: Ladder, level: nat, e: Expr, rest: seq<Token>)
    requires ExprOk(e) && 1 <= level <= POSTFIX && Terminated(rest) && Quiet(lad, level, rest[0])
    ensures Terminated(PrintAt(lad, level, e) + rest)
    ensures ParseAt(lad, level, PrintAt(lad, level, e) + rest) == LoopAt(lad, level, e, rest)
    decreases e, Rank(lad, level, e)
  {
    hide ParseAt, LoopAt, Print, Quiet;
    Ends(PrintAt(lad, level, e), rest);
    var p := Precedence(lad, e);
    if p < level {
      InParens(lad, e, rest);
      FromPrimary(lad, level, PrintAt(lad, level, e) + rest, e, rest);
    } else if p == level {
      AtItsLevel(lad, e, rest);
    } else if level < POSTFIX {
      QuietBelow(lad, level, rest[0]);
      ReadsBack(lad, level + 1, e, rest);
      if level == UNARY {
        PostfixStart(lad, e);
      }
      Rise(lad, level, PrintAt(lad, level, e) + rest, e, rest);
    } else {
      QuietIsNoBrace(lad, level, rest[0]);
      Atom(lad, e, rest);
      PostfixStart(lad, e);
      FromPrimary(lad, POSTFIX, PrintAt(lad, level, e) + rest, e, rest);
    }
  }

  lemma QuietBelow(lad: Ladder, level: nat, t: Token)
    requires Quiet(lad, level, t)
    ensures Quiet(lad, level + 1, t)
  {}

  lemma QuietIsNoBrace(lad: Ladder, level: nat, t: Token)
    requires Quiet(lad, level, t)
    ensures t != Sym(LeftBrace)
  {}

  /** Anything between parentheses is primary. */
  lemma {:induction false} InParens(lad: Ladder, e: Expr, rest: seq<Token>)
    requires ExprOk(e) && Terminated(rest)
    ensures var toks := [Sym(LeftParen)] + Print(lad, e) + [Sym(RightParen)] + rest;
            Terminated(toks) && ParsePrimary(lad, toks) == Ok(e, rest) && UnaryOf(toks[0]).None?
    decreases e, 35
  {
    hide ParsePrimary, ParseExpr, Print;
    var close := [Sym(RightParen)] + rest;
    Tail(Sym(RightParen), rest);
    ExprReadsBack(lad, e, close);
    ParenStep(lad, Print(lad, e) + close, e, rest);
    Cat3([Sym(LeftParen)], Print(lad, e), [Sym(RightParen)], rest);
  }

  /** A whole expression, in front of a token that ends expressions. */
  lemma {:induction false} ExprReadsBack(lad: Ladder, e: Expr, rest: seq<Token>)
    requires ExprOk(e) && Terminated(rest) && EndsExpression(rest[0])
    ensures Terminated(Print(lad, e) + rest) && ParseExpr(lad, Print(lad, e) + rest) == Ok(e, rest)
    decreases e, 30
  {
    hide ParseExpr, ParseBinary, LoopBinary, Print;
    EndIsQuiet(lad, 1, rest[0]);
    Ends(Print(lad, e), rest);
    if e.Assign? {
      AssignReadsBack(lad, e.location, e.value, rest);
    } else if Precedence(lad, e) == ASSIGNMENT {
      StructReadsBack(lad, e.name, e.fields, rest);
      FromPrimary(lad, 1, Print(lad, e) + rest, e, rest);
      PlainStep(lad, Print(lad, e) + rest, e, rest);
    } else {
      ReadsBack(lad, 1, e, rest);
      PlainStep(lad, Print(lad, e) + rest, e, rest);
    }
  }

  lemma EqualStops(lad: Ladder, t: Expr, toks: seq<Token>)
    requires Terminated(toks) && toks[0] == Sym(Equal)
    ensures Quiet(lad, 1, toks[0]) && LoopBinary(lad, 1, t, toks) == Ok(t, toks)
  {}

  lemma AssignShape(lad: Ladder, t: Expr, v: Expr, rest: seq<Token>)
    requires ExprOk(Assign(t, v))
    ensures Print(lad, Assign(t, v)) + rest == PrintAt(lad, 1, t) + ([Sym(Equal)] + (Print(lad, v) + rest))
  {
    hide Print;
    assert PrintAt(lad, ASSIGNMENT, v) == Print(lad, v);
    AssignPrint(lad, t, v);
    Cat3(PrintAt(lad, 1, t), [Sym(Equal)], Print(lad, v), rest);
  }

  lemma AssignPrint(lad: Ladder, t: Expr, v: Expr)
    requires ExprOk(Assign(t, v))
    ensures Print(lad, Assign(t, v)) == PrintAt(lad, 1, t) + [Sym(Equal)] + PrintAt(lad, ASSIGNMENT, v)
  {}

  lemma CallPrint(lad: Ladder, f: Expr, args: Args)
    requires ExprOk(Call(f, args))
    ensures Print(lad, Call(f, args)) == PrintAt(lad, POSTFIX, f) + [Sym(LeftParen)] + PrintArgs(lad, args) + [Sym(RightParen)]
  {}

  lemma {:induction false} AssignReadsBack(lad: Ladder, t: Expr, v: Expr, rest: seq<Token>)
    requires ExprOk(Assign(t, v)) && Terminated(rest) && EndsExpression(rest[0])
    ensures Terminated(Print(lad, Assign(t, v)) + rest)
    ensures ParseExpr(lad, Print(lad, Assign(t, v)) + rest) == Ok(Assign(t, v), rest)
    decreases Assign(t, v), 5
  {
    hide ParseExpr, ParseBinary, LoopBinary, Print, PrintAt;
    var r1 := [Sym(Equal)] + (Print(lad, v) + rest);
    ExprReadsBack(lad, v, rest);
    Tail(Sym(Equal), Print(lad, v) + rest);
    EqualStops(lad, t, r1);
    ReadsBack(lad, 1, t, r1);
    AssignShape(lad, t, v, rest);
    AssignStep(lad, PrintAt(lad, 1, t) + r1, t, r1, v, rest);
  }

  /** An expression at the very level of its outermost operator. */
  lemma {:induction false} AtItsLevel(lad: Ladder, e: Expr, rest: seq<Token>)
    requires ExprOk(e) && 1 <= Precedence(lad, e) <= POSTFIX && Terminated(rest) && Quiet(lad, Precedence(lad, e), rest[0])
    ensures Terminated(Print(lad, e) + rest)
    ensures ParseAt(lad, Precedence(lad, e), Print(lad, e) + rest) == LoopAt(lad, Precedence(lad, e), e, rest)
    decreases e, 6
  {
    hide ParseExpr, ParseBinary, ParseCast, ParseUnary, ParsePostfix, LoopBinary, LoopCast, LoopPostfix, Print, Quiet;
    match e
    case Binary(op, l, r) => BinaryReadsBack(lad, op, l, r, rest);
    case Cast(x, t) => CastReadsBack(lad, x, t, rest);
    case Unary(op, x) => UnaryReadsBack(lad, op, x, rest);
    case Call(f, args) => CallReadsBack(lad, f, args, rest);
    case Index(o, i) => IndexReadsBack(lad, o, i, rest);
    case Member(o, field) => MemberReadsBack(lad, o, field, rest);
    case _ =>
  }

  lemma {:induction false} BinaryReadsBack(lad: Ladder, op: BinaryOp, l: Expr, r: Expr, rest: seq<Token>)
    requires ExprOk(Binary(op, l, r)) && Terminated(rest) && Quiet(lad, Level(lad, op), rest[0])
    ensures var e := Binary(op, l, r); var n := Level(lad, op);
            && Terminated(Print(lad, e) + rest)
            && ParseAt(lad, n, Print(lad, e) + rest) == LoopAt(lad, n, e, rest)
    decreases Binary(op, l, r), 5
  {
    hide ParseBinary, LoopBinary, ParseUnary, Quiet;
    var n := Level(lad, op);
    var right := PrintAt(lad, RightLevel(lad, n), r) + rest;
    RightReadsBack(lad, n, r, rest);
    BinaryStep(lad, op, l, right, r, rest);
    OperatorIsQuiet(lad, op);
    ReadsBack(lad, n, l, [Sym(BinarySymbol(op))] + right);
    Cat3(PrintAt(lad, n, l), [Sym(BinarySymbol(op))], PrintAt(lad, RightLevel(lad, n), r), rest);
  }

  lemma OperatorIsQuiet(lad: Ladder, op: BinaryOp)
    ensures Quiet(lad, Level(lad, op), Sym(BinarySymbol(op)))
  {
    BinaryOfSymbol(op);
  }

  lemma {:induction false} RightReadsBack(lad: Ladder, n: nat, r: Expr, rest: seq<Token>)
    requires ExprOk(r) && Terminated(rest) && 1 <= n <= MULTIPLICATIVE && Quiet(lad, n, rest[0])
    ensures var right := PrintAt(lad, RightLevel(lad, n), r) + rest;
            Terminated(right) && ParseRight(lad, n, right) == Ok(r, rest)
    decreases r, 60
  {
    hide ParseBinary, LoopBinary, ParseUnary;
    var k := RightLevel(lad, n);
    QuietBelow(lad, n, rest[0]);
    assert Quiet(lad, k, rest[0]);
    ReadsBack(lad, k, r, rest);
    if n < MULTIPLICATIVE {
      Stops(lad, n, r, rest);
    }
  }

  lemma {:induction false} CastReadsBack(lad: Ladder, x: Expr, t: Type, rest: seq<Token>)
    requires ExprOk(Cast(x, t)) && Terminated(rest)
    ensures var e := Cast(x, t);
            Terminated(Print(lad, e) + rest) && ParseCast(lad, Print(lad, e) + rest) == LoopCast(lad, e, rest)
    decreases Cast(x, t), 5
  {
    hide ParseCast, LoopCast, PrintType;
    TypeReadsBack(lad, t, rest);
    CastStep(lad, x, PrintType(t) + rest, t, rest);
    ReadsBack(lad, CAST, x, [Kw(AsKw)] + (PrintType(t) + rest));
    Cat3(PrintAt(lad, CAST, x), [Kw(AsKw)], PrintType(t), rest);
  }

  lemma {:induction false} UnaryReadsBack(lad: Ladder, op: UnaryOp, x: Expr, rest: seq<Token>)
    requires ExprOk(Unary(op, x)) && Terminated(rest) && Quiet(lad, UNARY, rest[0])
    ensures var e := Unary(op, x);
            Terminated(Print(lad, e) + rest) && ParseUnary(lad, Print(lad, e) + rest) == Ok(e, rest)
    decreases Unary(op, x), 5
  {
    hide ParseUnary, Quiet;
    ReadsBack(lad, UNARY, x, rest);
    UnaryStep(lad, op, PrintAt(lad, UNARY, x) + rest, x, rest);
    assert Print(lad, Unary(op, x)) + rest == [Sym(UnarySymbol(op))] + (PrintAt(lad, UNARY, x) + rest);
  }

  lemma {:induction false} CallReadsBack(lad: Ladder, f: Expr, args: Args, rest: seq<Token>)
    requires ExprOk(Call(f, args)) && Terminated(rest)
    ensures var e := Call(f, args);
            Terminated(Print(lad, e) + rest) && ParsePostfix(lad, Print(lad, e) + rest) == LoopPostfix(lad, e, rest)
    decreases Call(f, args), 5
  {
    hide ParsePostfix, LoopPostfix, PrintArgs, ParseArgs, Print, PrintAt;
    CallPrint(lad, f, args);
    var r1 := [Sym(RightParen)] + rest;
    Tail(Sym(RightParen), rest);
    ArgsReadBack(lad, args, r1);
    CallStep(lad, f, args, PrintArgs(lad, args) + r1, r1);
    ReadsBack(lad, POSTFIX, f, [Sym(LeftParen)] + (PrintArgs(lad, args) + r1));
    Cat4(PrintAt(lad, POSTFIX, f), [Sym(LeftParen)], PrintArgs(lad, args), [Sym(RightParen)], rest);
  }

  lemma {:induction false} IndexReadsBack(lad: Ladder, o: Expr, i: Expr, rest: seq<Token>)
    requires ExprOk(Index(o, i)) && Terminated(rest)
    ensures var e := Index(o, i);
            Terminated(Print(lad, e) + rest) && ParsePostfix(lad, Print(lad, e) + rest) == LoopPostfix(lad, e, rest)
    decreases Index(o, i), 5
  {
    hide ParsePostfix, LoopPostfix, ParseExpr;
    var r1 := [Sym(RightBracket)] + rest;
    Tail(Sym(RightBracket), rest);
    ExprReadsBack(lad, i, r1);
    IndexStep(lad, o, Print(lad, i) + r1, i, r1);
    ReadsBack(lad, POSTFIX, o, [Sym(LeftBracket)] + (Print(lad, i) + r1));
    Cat4(PrintAt(lad, POSTFIX, o), [Sym(LeftBracket)], Print(lad, i), [Sym(RightBracket)], rest);
  }

  lemma {:induction false} MemberReadsBack(lad: Ladder, o: Expr, field: string, rest: seq<Token>)
    requires ExprOk(o) && Terminated(rest)
    ensures var e := Member(o, field);
            Terminated(Print(lad, e) + rest) && ParsePostfix(lad, Print(lad, e) + rest) == LoopPostfix(lad, e, rest)
    decreases Member(o, field), 5
  {
    hide ParsePostfix, LoopPostfix, PrintAt;
    MemberStep(lad, o, field, rest);
    ReadsBack(lad, POSTFIX, o, [Sym(Dot), Ident(field)] + rest);
    assert PrintAt(lad, POSTFIX, o) + [Sym(Dot), Ident(field)] + rest
        == PrintAt(lad, POSTFIX, o) + ([Sym(Dot), Ident(field)] + rest);
  }

  /** Names, literals, array literals and struct literals with fields. */
  lemma {:induction false} Atom(lad: Ladder, e: Expr, rest: seq<Token>)
    requires ExprOk(e) && Precedence(lad, e) == PRIMARY && Terminated(rest) && rest[0] != Sym(LeftBrace)
    ensures Terminated(Print(lad, e) + rest) && ParsePrimary(lad, Print(lad, e) + rest) == Ok(e, rest)
    decreases e, 6
  {
    hide ParseArgs, ParseElements, ParseFields, PrintArgs, PrintFields;
    match e
    case ArrayLiteral(elems) =>
      var r1 := [Sym(RightBracket)] + rest;
      Tail(Sym(RightBracket), rest);
      ElementsReadBack(lad, elems, r1);
      ArrayLiteralStep(lad, elems, PrintArgs(lad, elems) + r1, rest);
      Cat3([Sym(LeftBracket)], PrintArgs(lad, elems), [Sym(RightBracket)], rest);
    case StructLiteral(name, fields) => StructReadsBack(lad, name, fields, rest);
    case Number(k, x) => Tail(Lit(k, x), rest);
    case Bool(b) => Tail(Kw(if b then TrueKw else FalseKw), rest);
    case Nil => Tail(Kw(NilKw), rest);
    case Name(id) => Tail(Ident(id), rest);
  }

  lemma StructPrint(lad: Ladder, name: string, fields: Fields, rest: seq<Token>)
    requires FieldsOk(fields)
    ensures Print(lad, StructLiteral(name, fields)) + rest
            == [Ident(name), Sym(LeftBrace)] + (PrintFields(lad, fields) + ([Sym(RightBrace)] + rest))
  {
    Cat3([Ident(name), Sym(LeftBrace)], PrintFields(lad, fields), [Sym(RightBrace)], rest);
  }

  lemma NoFieldsPrint(lad: Ladder, toks: seq<Token>)
    ensures PrintFields(lad, NoFields) + toks == toks
  {}

  lemma {:induction false} StructReadsBack(lad: Ladder, name: string, fields: Fields, rest: seq<Token>)
    requires FieldsOk(fields) && Terminated(rest) && (fields.NoFields? ==> EndsExpression(rest[0]))
    ensures var e := StructLiteral(name, fields);
            && Terminated(Print(lad, e) + rest)
            && ParsePrimary(lad, Print(lad, e) + rest) == Ok(e, rest)
            && UnaryOf((Print(lad, e) + rest)[0]).None?
    decreases StructLiteral(name, fields), 5
  {
    hide ParsePrimary, ParseFields, Print, PrintFields, FieldsOk, EndsExpression;
    var r1 := [Sym(RightBrace)] + rest;
    Tail(Sym(RightBrace), rest);
    StructPrint(lad, name, fields, rest);
    if fields.Field? {
      FieldsReadBack(lad, fields, r1);
    } else {
      NoFieldsPrint(lad, r1);
    }
    StructStep(lad, name, fields, PrintFields(lad, fields) + r1, rest);
  }

  lemma {:induction false} ArgsReadBack(lad: Ladder, args: Args, rest: seq<Token>)
    requires ArgsOk(args) && Terminated(rest) && rest[0] == Sym(RightParen)
    ensures var toks := PrintArgs(lad, args) + rest;
            && Terminated(toks)
            && (if args.NoArgs? then toks == rest else toks[0] != Sym(RightParen) && ParseArgs(lad, toks) == Ok(args, rest))
    decreases args, 2
  {
    hide ParseArg, PrintArg;
    if args.NoArgs? {
    } else if args.tail.NoArgs? {
      ArgReadsBack(lad, args, rest);
    } else {
      var r1 := [Sym(Comma)] + (PrintArgs(lad, args.tail) + rest);
      ArgsReadBack(lad, args.tail, rest);
      Tail(Sym(Comma), PrintArgs(lad, args.tail) + rest);
      ArgReadsBack(lad, args, r1);
      Cat3(PrintArg(lad, args), [Sym(Comma)], PrintArgs(lad, args.tail), rest);
    }
  }

  lemma {:induction false} ArgReadsBack(lad: Ladder, args: Args, rest: seq<Token>)
    requires ArgsOk(args) && !args.NoArgs? && Terminated(rest) && EndsExpression(rest[0])
    ensures var toks := PrintArg(lad, args) + rest;
            && Terminated(toks) && toks[0] != Sym(RightParen) && ParseArg(lad, toks) == Ok(args.(tail := NoArgs), rest)
    decreases args, 1
  {
    hide ParseExpr, ParseType, Print, PrintType;
    match args
    case Arg(e, _) =>
      ExprStart(lad, ASSIGNMENT, e);
      ExprReadsBack(lad, e, rest);
    case TypeArg(t, _) =>
      TypeReadsBack(lad, t, rest);
      Tail(Sym(At), PrintType(t) + rest);
      assert [Sym(At)] + PrintType(t) + rest == [Sym(At)] + (PrintType(t) + rest);
  }

  lemma {:induction false} ElementsReadBack(lad: Ladder, elems: Args, rest: seq<Token>)
    requires ArgsOk(elems) && NoTypeArgs(elems) && Terminated(rest) && rest[0] == Sym(RightBracket)
    ensures var toks := PrintArgs(lad, elems) + rest;
            && Terminated(toks)
            && (if elems.NoArgs? then toks == rest
                else toks[0] != Sym(RightBracket) && ParseElements(lad, toks) == Ok(elems, rest))
    decreases elems, 2
  {
    hide ParseExpr, Print;
    if elems.Arg? {
      ExprStart(lad, ASSIGNMENT, elems.head);
      if elems.tail.NoArgs? {
        ExprReadsBack(lad, elems.head, rest);
      } else {
        var r1 := [Sym(Comma)] + (PrintArgs(lad, elems.tail) + rest);
        ElementsReadBack(lad, elems.tail, rest);
        Tail(Sym(Comma), PrintArgs(lad, elems.tail) + rest);
        ExprReadsBack(lad, elems.head, r1);
        Cat3(PrintArg(lad, elems), [Sym(Comma)], PrintArgs(lad, elems.tail), rest);
      }
    }
  }

  lemma LastFieldStep(lad: Ladder, name: string, toks: seq<Token>, v: Expr, rest: seq<Token>)
    requires Terminated(toks) && Terminated(rest) && rest[0] == Sym(RightBrace) && ParseExpr(lad, toks) == Ok(v, rest)
    ensures Terminated([Ident(name), Sym(Colon)] + toks)
    ensures ParseFields(lad, [Ident(name), Sym(Colon)] + toks) == Ok(Field(name, v, NoFields), rest)
  {
    hide ParseExpr;
    Tail2(Ident(name), Sym(Colon), toks);
  }

  lemma FieldStep(lad: Ladder, name: string, toks: seq<Token>, v: Expr, r1: seq<Token>, f: Fields, rest: seq<Token>)
    requires Terminated(toks) && Terminated(r1) && Terminated(rest) && r1[0] != Sym(RightBrace)
    requires ParseExpr(lad, toks) == Ok(v, [Sym(Comma)] + r1) && ParseFields(lad, r1) == Ok(f, rest)
    ensures Terminated([Ident(name), Sym(Colon)] + toks)
    ensures ParseFields(lad, [Ident(name), Sym(Colon)] + toks) == Ok(Field(name, v, f), rest)
  {
    hide ParseExpr;
    Tail(Sym(Comma), r1);
    Tail2(Ident(name), Sym(Colon), toks);
  }

  lemma FieldsPrint(lad: Ladder, f: Fields, rest: seq<Token>)
    requires FieldsOk(f) && f.Field?
    ensures PrintFields(lad, f) + rest == [Ident(f.name), Sym(Colon)] + (Print(lad, f.value) +
              (if f.rest.NoFields? then rest else [Sym(Comma)] + (PrintFields(lad, f.rest) + rest)))
  {
    hide Print;
    assert PrintAt(lad, ASSIGNMENT, f.value) == Print(lad, f.value);
    var h, a := [Ident(f.name), Sym(Colon)], Print(lad, f.value);
    if f.rest.NoFields? {
      assert PrintFields(lad, f) == h + a + [];
      assert h + a + [] + rest == h + (a + rest);
    } else {
      var b := [Sym(Comma)];
      var c := PrintFields(lad, f.rest);
      assert PrintFields(lad, f) == h + a + (b + c);
      assert h + a + (b + c) + rest == h + (a + (b + (c + rest)));
    }
  }

  lemma {:induction false} FieldsReadBack(lad: Ladder, f: Fields, rest: seq<Token>)
    requires FieldsOk(f) && f.Field? && Terminated(rest) && rest[0] == Sym(RightBrace)
    ensures var toks := PrintFields(lad, f) + rest;
            && Terminated(toks) && |toks| > 1 && toks[0].Ident? && toks[1] == Sym(Colon)
            && ParseFields(lad, toks) == Ok(f, rest)
    decreases f, 2
  {
    hide ParseExpr, ParseFields, Print, PrintFields;
    FieldsPrint(lad, f, rest);
    if f.rest.NoFields? {
      ExprReadsBack(lad, f.value, rest);
      LastFieldStep(lad, f.name, Print(lad, f.value) + rest, f.value, rest);
    } else {
      var r1 := PrintFields(lad, f.rest) + rest;
      FieldsReadBack(lad, f.rest, rest);
      Tail(Sym(Comma), r1);
      ExprReadsBack(lad, f.value, [Sym(Comma)] + r1);
      FieldStep(lad, f.name, Print(lad, f.value) + ([Sym(Comma)] + r1), f.value, r1, f.rest, rest);
    }
  }

  /** Printing any expression and parsing the tokens in front of a token that ends expressions gives the
      expression back and leaves exactly the tokens behind it. */
  lemma PrintThenParse(e: Expr, rest: seq<Token>)
    requires ExprOk(e) && Terminated(rest) && EndsExpression(rest[0])
    ensures Terminated(Print(Truk, e) + rest) && ParseExpr(Truk, Print(Truk, e) + rest) == Ok(e, rest)
  {
    ExprReadsBack(Truk, e, rest);
  }
}
