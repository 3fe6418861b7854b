/** The expressions that the emitter writes read back as themselves, under truk's ladder and under C's. */
module ExprEmitted {
  import opened ExprSyntax
  import opened ExprGrammar
  import opened ExprPrint
  import opened ExprRoundTrip
  import opened ExprMinimal

  /** From a tight level to any looser one. */
  lemma {:induction false} Climb(lad: Ladder, from: nat, to: nat, toks: seq<Token>, e: Expr, rest: seq<Token>)
    requires Terminated(toks) && Terminated(rest) && 1 <= to <= from <= POSTFIX && Quiet(lad, to, rest[0])
    requires ParseAt(lad, from, toks) == LoopAt(lad, from, e, rest)
    requires to <= UNARY < from ==> UnaryOf(toks[0]).None?
    ensures ParseAt(lad, to, toks) == LoopAt(lad, to, e, rest)
    decreases from - to
  {
    hide ParseAt, LoopAt, Quiet;
    if to < from {
      QuietBelow(lad, to, rest[0]);
      Climb(lad, from, to + 1, toks, e, rest);
      Rise(lad, to, toks, e, rest);
    }
  }

  /** What stands between parentheses, read at some level, becomes primary. */
  lemma Enclosed(lad: Ladder, level: nat, inner: seq<Token>, e: Expr, rest: seq<Token>)
    requires Terminated(rest) && 1 <= level <= POSTFIX && inner != []
    requires var close := [Sym(RightParen)] + rest;
             && Terminated(close) && Terminated(inner + close)
             && ParseAt(lad, level, inner + close) == LoopAt(lad, level, e, close)
    requires level == POSTFIX ==> UnaryOf(inner[0]).None?
    ensures var toks := [Sym(LeftParen)] + inner + [Sym(RightParen)] + rest;
            Terminated(toks) && toks[0] == Sym(LeftParen) && ParsePostfix(lad, toks) == LoopPostfix(lad, e, rest)
  {
    hide ParseExpr, ParseBinary, ParsePostfix, LoopPostfix, LoopBinary, ParsePrimary;
    var close := [Sym(RightParen)] + rest;
    EndIsQuiet(lad, 1, close[0]);
    Climb(lad, level, 1, inner + close, e, close);
    PlainStep(lad, inner + close, e, close);
    ParenStep(lad, inner + close, e, rest);
    Cat3([Sym(LeftParen)], inner, [Sym(RightParen)], rest);
    PrimaryFirst(lad, [Sym(LeftParen)] + (inner + close), e, rest);
  }

  lemma PrimaryFirst(lad: Ladder, toks: seq<Token>, e: Expr, rest: seq<Token>)
    requires Terminated(toks) && Terminated(rest) && ParsePrimary(lad, toks) == Ok(e, rest)
    ensures ParsePostfix(lad, toks) == LoopPostfix(lad, e, rest)
  {}

  lemma {:induction false} EmitStart(e: Expr)
    requires Emittable(e)
    ensures Emit(e) != [] && Starter(Emit(e)[0]) && UnaryOf(Emit(e)[0]).None?
  {
    match e
    case Call(f, _) => EmitStart(f);
    case Index(o, _) => EmitStart(o);
    case Member(o, _) => EmitStart(o);
    case _ =>
  }

  /** In front of anything but `{`, the emitted text is an operand of the postfix loop. */
  lemma {:induction false} OperandReadsBack(lad: Ladder, e: Expr, rest: seq<Token>)
    requires Emittable(e) && Terminated(rest) && rest[0] != Sym(LeftBrace)
    ensures Terminated(Emit(e) + rest) && ParsePostfix(lad, Emit(e) + rest) == LoopPostfix(lad, e, rest)
    decreases e, 2
  {
    hide ParsePostfix, LoopPostfix, Emit, EmitArgs, ParsePrimary;
    match e
    case Unary(op, x) => EmittedUnary(lad, op, x, rest);
    case Binary(op, l, r) => EmittedBinary(lad, op, l, r, rest);
    case Call(f, args) => EmittedCall(lad, f, args, rest);
    case Index(o, i) => EmittedIndex(lad, o, i, rest);
    case Member(o, field) => EmittedMember(lad, o, field, rest);
    case _ => EmittedAtom(lad, e, rest);
  }

  lemma EmittedAtom(lad: Ladder, e: Expr, rest: seq<Token>)
    requires Emittable(e) && Terminated(rest) && rest[0] != Sym(LeftBrace)
    requires e.Number? || e.Bool? || e.Nil? || e.Name?
    ensures Terminated(Emit(e) + rest) && ParsePostfix(lad, Emit(e) + rest) == LoopPostfix(lad, e, rest)
  {
    hide ParsePostfix, LoopPostfix, ParsePrimary;
    Atom(lad, e, rest);
    assert Emit(e) == Print(lad, e);
    PrimaryFirst(lad, Emit(e) + rest, e, rest);
  }

  /** A sub-expression read at any level, up to the operators behind it. */
  lemma {:induction false} OperandAt(lad: Ladder, level: nat, e: Expr, rest: seq<Token>)
    requires Emittable(e) && Terminated(rest) && 1 <= level <= POSTFIX && Quiet(lad, level, rest[0])
    ensures Terminated(Emit(e) + rest) && ParseAt(lad, level, Emit(e) + rest) == LoopAt(lad, level, e, rest)
    decreases e, 3
  {
    hide ParsePostfix, LoopPostfix, ParseBinary, LoopBinary, Emit, Quiet;
    QuietIsNoBrace(lad, level, rest[0]);
    OperandReadsBack(lad, e, rest);
    EmitStart(e);
    Climb(lad, POSTFIX, level, Emit(e) + rest, e, rest);
  }

  /** A whole emitted expression. */
  lemma {:induction false} EmittedReadsBack(lad: Ladder, e: Expr, rest: seq<Token>)
    requires Emittable(e) && Terminated(rest) && EndsExpression(rest[0])
    ensures Terminated(Emit(e) + rest) && ParseExpr(lad, Emit(e) + rest) == Ok(e, rest)
    decreases e, 4
  {
    hide ParseExpr, ParseBinary, LoopBinary, Emit;
    EndIsQuiet(lad, 1, rest[0]);
    OperandAt(lad, 1, e, rest);
    PlainStep(lad, Emit(e) + rest, e, rest);
  }

  lemma {:induction false} EmittedUnary(lad: Ladder, op: UnaryOp, x: Expr, rest: seq<Token>)
    requires Emittable(x) && Terminated(rest)
    ensures var e := Unary(op, x);
            Terminated(Emit(e) + rest) && ParsePostfix(lad, Emit(e) + rest) == LoopPostfix(lad, e, rest)
    decreases Unary(op, x), 1
  {
    hide ParsePostfix, LoopPostfix, ParseUnary, Quiet, Emit;
    UnaryEmit(op, x);
    var close := [Sym(RightParen)] + rest;
    Tail(Sym(RightParen), rest);
    EndIsQuiet(lad, UNARY, close[0]);
    OperandAt(lad, UNARY, x, close);
    UnaryStep(lad, op, Emit(x) + close, x, close);
    var inner := [Sym(UnarySymbol(op))] + Emit(x);
    assert inner + close == [Sym(UnarySymbol(op))] + (Emit(x) + close);
    Enclosed(lad, UNARY, inner, Unary(op, x), rest);
  }

  lemma UnaryEmit(op: UnaryOp, x: Expr)
    requires Emittable(x)
    ensures Emit(Unary(op, x)) == [Sym(LeftParen)] + ([Sym(UnarySymbol(op))] + Emit(x)) + [Sym(RightParen)]
  {}

  lemma {:induction false} EmittedBinary(lad: Ladder, op: BinaryOp, l: Expr, r: Expr, rest: seq<Token>)
    requires Emittable(l) && Emittable(r) && Terminated(rest)
    ensures var e := Binary(op, l, r);
            Terminated(Emit(e) + rest) && ParsePostfix(lad, Emit(e) + rest) == LoopPostfix(lad, e, rest)
    decreases Binary(op, l, r), 1
  {
    hide ParsePostfix, LoopPostfix, ParseBinary, LoopBinary, Quiet, ParseRight, Emit;
    var n := Level(lad, op);
    var close := [Sym(RightParen)] + rest;
    Tail(Sym(RightParen), rest);
    var right := Emit(r) + close;
    EmittedRight(lad, n, r, close);
    BinaryStep(lad, op, l, right, r, close);
    OperatorIsQuiet(lad, op);
    OperandAt(lad, n, l, [Sym(BinarySymbol(op))] + right);
    var inner := Emit(l) + [Sym(BinarySymbol(op))] + Emit(r);
    Cat3(Emit(l), [Sym(BinarySymbol(op))], Emit(r), close);
    EmitStart(l);
    Enclosed(lad, n, inner, Binary(op, l, r), rest);
    BinaryEmit(op, l, r);
  }

  lemma BinaryEmit(op: BinaryOp, l: Expr, r: Expr)
    requires Emittable(l) && Emittable(r)
    ensures Emit(Binary(op, l, r)) == [Sym(LeftParen)] + (Emit(l) + [Sym(BinarySymbol(op))] + Emit(r)) + [Sym(RightParen)]
  {}

  lemma {:induction false} EmittedRight(lad: Ladder, n: nat, r: Expr, close: seq<Token>)
    requires Emittable(r) && 1 <= n <= MULTIPLICATIVE && Terminated(close) && close[0] == Sym(RightParen)
    ensures Terminated(Emit(r) + close) && ParseRight(lad, n, Emit(r) + close) == Ok(r, close)
    decreases r, 60
  {
    hide ParseBinary, LoopBinary, ParseUnary, Emit, Quiet;
    EndIsQuiet(lad, RightLevel(lad, n), close[0]);
    OperandAt(lad, RightLevel(lad, n), r, close);
    if n < MULTIPLICATIVE {
      EndIsQuiet(lad, n, close[0]);
      Stops(lad, n, r, close);
    }
  }

  lemma {:induction false} EmittedCall(lad: Ladder, f: Expr, args: Args, rest: seq<Token>)
    requires Emittable(f) && EmittableArgs(args) && Terminated(rest)
    ensures var e := Call(f, args);
            Terminated(Emit(e) + rest) && ParsePostfix(lad, Emit(e) + rest) == LoopPostfix(lad, e, rest)
    decreases Call(f, args), 1
  {
    hide ParsePostfix, LoopPostfix, EmitArgs, ParseArgs, Emit;
    CallEmit(f, args);
    var r1 := [Sym(RightParen)] + rest;
    Tail(Sym(RightParen), rest);
    EmittedArgs(lad, args, r1);
    CallStep(lad, f, args, EmitArgs(args) + r1, r1);
    OperandReadsBack(lad, f, [Sym(LeftParen)] + (EmitArgs(args) + r1));
    Cat4(Emit(f), [Sym(LeftParen)], EmitArgs(args), [Sym(RightParen)], rest);
  }

  lemma CallEmit(f: Expr, args: Args)
    requires Emittable(f) && EmittableArgs(args)
    ensures Emit(Call(f, args)) == Emit(f) + [Sym(LeftParen)] + EmitArgs(args) + [Sym(RightParen)]
  {}

  lemma {:induction false} EmittedIndex(lad: Ladder, o: Expr, i: Expr, rest: seq<Token>)
    requires Emittable(o) && Emittable(i) && Terminated(rest)
    ensures var e := Index(o, i);
            Terminated(Emit(e) + rest) && ParsePostfix(lad, Emit(e) + rest) == LoopPostfix(lad, e, rest)
    decreases Index(o, i), 1
  {
    hide ParsePostfix, LoopPostfix, ParseExpr, Emit;
    IndexEmit(o, i);
    var r1 := [Sym(RightBracket)] + rest;
    Tail(Sym(RightBracket), rest);
    EmittedReadsBack(lad, i, r1);
    IndexStep(lad, o, Emit(i) + r1, i, r1);
    OperandReadsBack(lad, o, [Sym(LeftBracket)] + (Emit(i) + r1));
    Cat4(Emit(o), [Sym(LeftBracket)], Emit(i), [Sym(RightBracket)], rest);
  }

  lemma IndexEmit(o: Expr, i: Expr)
    requires Emittable(o) && Emittable(i)
    ensures Emit(Index(o, i)) == Emit(o) + [Sym(LeftBracket)] + Emit(i) + [Sym(RightBracket)]
  {}

  lemma {:induction false} EmittedMember(lad: Ladder, o: Expr, field: string, rest: seq<Token>)
    requires Emittable(o) && Terminated(rest)
    ensures var e := Member(o, field);
            Terminated(Emit(e) + rest) && ParsePostfix(lad, Emit(e) + rest) == LoopPostfix(lad, e, rest)
    decreases Member(o, field), 1
  {
    hide ParsePostfix, LoopPostfix, Emit;
    MemberEmit(o, field);
    MemberStep(lad, o, field, rest);
    OperandReadsBack(lad, o, [Sym(Dot), Ident(field)] + rest);
    assert Emit(o) + [Sym(Dot), Ident(field)] + rest == Emit(o) + ([Sym(Dot), Ident(field)] + rest);
  }

  lemma MemberEmit(o: Expr, field: string)
    requires Emittable(o)
    ensures Emit(Member(o, field)) == Emit(o) + [Sym(Dot), Ident(field)]
  {}

  lemma {:induction false} EmittedArgs(lad: Ladder, args: Args, rest: seq<Token>)
    requires EmittableArgs(args) && Terminated(rest) && rest[0] == Sym(RightParen)
    ensures var toks := EmitArgs(args) + rest;
            && Terminated(toks)
            && (if args.NoArgs? then toks == rest else toks[0] != Sym(RightParen) && ParseArgs(lad, toks) == Ok(args, rest))
    decreases args, 1
  {
    hide ParseExpr, Emit;
    if args.Arg? {
      EmitStart(args.head);
      if args.tail.NoArgs? {
        EmittedReadsBack(lad, args.head, rest);
      } else {
        var r1 := [Sym(Comma)] + (EmitArgs(args.tail) + rest);
        EmittedArgs(lad, args.tail, rest);
        Tail(Sym(Comma), EmitArgs(args.tail) + rest);
        EmittedReadsBack(lad, args.head, r1);
        Cat3(Emit(args.head), [Sym(Comma)], EmitArgs(args.tail), rest);
      }
    }
  }

  /** What the emitter writes for one tree is read by C as the very tree that truk read. */
  lemma LaddersAgreeOnEmitted(e: Expr, rest: seq<Token>)
    requires Emittable(e) && Terminated(rest) && EndsExpression(rest[0])
    ensures Terminated(Emit(e) + rest) && ParseExpr(C, Emit(e) + rest) == ParseExpr(Truk, Emit(e) + rest) == Ok(e, rest)
  {
    hide ParseExpr, Emit;
    EmittedReadsBack(C, e, rest);
    EmittedReadsBack(Truk, e, rest);
  }

  /** Without the emitter's parentheses the two ladders disagree: `a & b == c` compares `a & b` in truk and
      combines `a` with a comparison in C. */
  lemma LaddersDisagreeOnMinimal()
    ensures var a, b, c := Name("a"), Name("b"), Name("c");
            var source := [Ident("a"), Sym(Amp), Ident("b"), Sym(EqualEqual), Ident("c"), Eof];
            && Terminated(source)
            && ParseExpr(Truk, source) == Ok(Binary(Eq, Binary(BitAnd, a, b), c), [Eof])
            && ParseExpr(C, source) == Ok(Binary(BitAnd, a, Binary(Eq, b, c)), [Eof])
  {
    hide ParseExpr;
    var a, b, c := Name("a"), Name("b"), Name("c");
    var source := [Ident("a"), Sym(Amp), Ident("b"), Sym(EqualEqual), Ident("c"), Eof];
    var inTruk, inC := Binary(Eq, Binary(BitAnd, a, b), c), Binary(BitAnd, a, Binary(Eq, b, c));
    assert ExprOk(inTruk.left) && ExprOk(inC.right);
    assert Print(Truk, inTruk) + [Eof] == source by {
      assert Print(Truk, inTruk.left) == [Ident("a"), Sym(Amp), Ident("b")];
    }
    assert Print(C, inC) + [Eof] == source by {
      assert Print(C, inC.right) == [Ident("b"), Sym(EqualEqual), Ident("c")];
    }
    ExprReadsBack(Truk, inTruk, [Eof]);
    ExprReadsBack(C, inC, [Eof]);
  }
}
