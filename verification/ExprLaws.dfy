/** What the grammar makes of tokens that the printer never writes, each time by comparison with what it does write. */
module ExprLaws {
  import opened Options
  import opened ExprSyntax
  import opened ExprGrammar
  import opened ExprPrint
  import opened ExprRoundTrip
  import opened ExprMinimal
  import opened ExprSpelling

  /** The tokens that end an expression. */
  lemma Terminators(t: Token)
    ensures EndsExpression(t) <==> t == Eof || (t.Sym? && Spell(t.s) in {";", ",", ")", "]", "}"})
  {
    hide Spell;
    TerminatorSpellings();
    if t.Sym? {
      SpellingsDiffer(t.s, Semicolon);
      SpellingsDiffer(t.s, Comma);
      SpellingsDiffer(t.s, RightParen);
      SpellingsDiffer(t.s, RightBracket);
      SpellingsDiffer(t.s, RightBrace);
    }
  }

  lemma TerminatorSpellings()
    ensures Spell(Semicolon) == ";" && Spell(Comma) == "," && Spell(RightParen) == ")"
    ensures Spell(RightBracket) == "]" && Spell(RightBrace) == "}"
  {
    hide *;
    OneSpelling(Semicolon, ";");
    OneSpelling(Comma, ",");
    OneSpelling(RightParen, ")");
    OneSpelling(RightBracket, "]");
    OneSpelling(RightBrace, "}");
  }

  lemma OneSpelling(s: Symbol, c: string)
    requires match s case Semicolon => c == ";" case Comma => c == "," case RightParen => c == ")"
             case RightBracket => c == "]" case RightBrace => c == "}" case _ => false
    ensures Spell(s) == c
  {}

  // ----- which operator groups first -----

  /** Two operators between three names: the one whose row is tighter groups first, and of one row the left one. */
  lemma Grouping(lad: Ladder, p: BinaryOp, q: BinaryOp, i: nat, j: nat, a: string, b: string, c: string, rest: seq<Token>)
    requires Terminated(rest) && EndsExpression(rest[0])
    requires i < |Rows(lad)| && Sign(p) in Rows(lad)[i] && j < |Rows(lad)| && Sign(q) in Rows(lad)[j]
    ensures var toks := [Ident(a), Sym(BinarySymbol(p)), Ident(b), Sym(BinarySymbol(q)), Ident(c)] + rest;
            && Terminated(toks)
            && ParseExpr(lad, toks) ==
               Ok(if i >= j then Binary(q, Binary(p, Name(a), Name(b)), Name(c))
                  else Binary(p, Name(a), Binary(q, Name(b), Name(c))), rest)
  {
    hide ParseExpr, Rows, Sign, BinarySymbol, Print;
    LevelIsRow(lad, p, i);
    LevelIsRow(lad, q, j);
    NamesOk(p, q, a, b, c);
    var e := if i >= j then Binary(q, Binary(p, Name(a), Name(b)), Name(c))
             else Binary(p, Name(a), Binary(q, Name(b), Name(c)));
    ExprReadsBack(lad, e, rest);
    if i >= j {
      LeftPrint(lad, p, q, a, b, c);
    } else {
      RightPrint(lad, p, q, a, b, c);
    }
  }

  lemma NamesOk(p: BinaryOp, q: BinaryOp, a: string, b: string, c: string)
    ensures ExprOk(Binary(p, Name(a), Name(b))) && ExprOk(Binary(q, Binary(p, Name(a), Name(b)), Name(c)))
    ensures ExprOk(Binary(q, Name(b), Name(c))) && ExprOk(Binary(p, Name(a), Binary(q, Name(b), Name(c))))
  {
    assert ExprOk(Name(a)) && ExprOk(Name(b)) && ExprOk(Name(c));
  }

  lemma NamePrint(lad: Ladder, level: nat, a: string)
    requires level <= PRIMARY
    ensures PrintAt(lad, level, Name(a)) == [Ident(a)]
  {}

  lemma BinaryPrint(lad: Ladder, op: BinaryOp, l: Expr, r: Expr)
    requires ExprOk(l) && ExprOk(r)
    ensures Print(lad, Binary(op, l, r)) ==
            PrintAt(lad, Level(lad, op), l) + [Sym(BinarySymbol(op))] + PrintAt(lad, RightLevel(lad, Level(lad, op)), r)
  {}

  lemma LeftPrint(lad: Ladder, p: BinaryOp, q: BinaryOp, a: string, b: string, c: string)
    requires Level(lad, p) >= Level(lad, q) && ExprOk(Binary(q, Binary(p, Name(a), Name(b)), Name(c)))
    ensures Print(lad, Binary(q, Binary(p, Name(a), Name(b)), Name(c)))
            == [Ident(a), Sym(BinarySymbol(p)), Ident(b), Sym(BinarySymbol(q)), Ident(c)]
  {
    hide Print, BinarySymbol, Level;
    var l := Binary(p, Name(a), Name(b));
    BinaryPrint(lad, q, l, Name(c));
    BinaryPrint(lad, p, Name(a), Name(b));
    NamePrint(lad, Level(lad, p), a);
    NamePrint(lad, RightLevel(lad, Level(lad, p)), b);
    NamePrint(lad, RightLevel(lad, Level(lad, q)), c);
  }

  lemma RightPrint(lad: Ladder, p: BinaryOp, q: BinaryOp, a: string, b: string, c: string)
    requires Level(lad, p) < Level(lad, q) && ExprOk(Binary(p, Name(a), Binary(q, Name(b), Name(c))))
    ensures Print(lad, Binary(p, Name(a), Binary(q, Name(b), Name(c))))
            == [Ident(a), Sym(BinarySymbol(p)), Ident(b), Sym(BinarySymbol(q)), Ident(c)]
  {
    hide Print, BinarySymbol, Level;
    var r := Binary(q, Name(b), Name(c));
    BinaryPrint(lad, p, Name(a), r);
    BinaryPrint(lad, q, Name(b), Name(c));
    NamePrint(lad, Level(lad, p), a);
    NamePrint(lad, Level(lad, q), b);
    NamePrint(lad, RightLevel(lad, Level(lad, q)), c);
  }

  // ----- compound assignment -----

  /** `t op= v`, for any target and value. */
  function CompoundText(lad: Ladder, t: Expr, s: Symbol, v: Expr): seq<Token>
    requires ExprOk(t) && ExprOk(v)
  {
    PrintAt(lad, 1, t) + [Sym(s)] + Print(lad, v)
  }

  /** `t = t op (v)` */
  function PlainText(lad: Ladder, t: Expr, op: BinaryOp, v: Expr): seq<Token>
    requires ExprOk(t) && ExprOk(v)
  {
    PrintAt(lad, 1, t) + [Sym(Equal)] +
    (PrintAt(lad, Level(lad, op), t) + [Sym(BinarySymbol(op))] + ([Sym(LeftParen)] + Print(lad, v) + [Sym(RightParen)]))
  }

  /** For every target that can be copied and every value, `t op= v` is read as `t = t op (v)` is, where the operator is
      the one that is written in front of the `=`; a target that cannot be copied is rejected. */
  lemma CompoundIsPlain(lad: Ladder, t: Expr, s: Symbol, op: BinaryOp, v: Expr, rest: seq<Token>)
    requires ExprOk(t) && ExprOk(v) && Terminated(rest) && EndsExpression(rest[0])
    requires Sign(op) in {"+", "-", "*", "/", "%"} && Spell(s) == Sign(op) + "="
    ensures Terminated(CompoundText(lad, t, s, v) + rest) && Terminated(PlainText(lad, t, op, v) + rest)
    ensures ParseExpr(lad, PlainText(lad, t, op, v) + rest) == Ok(Assign(t, Binary(op, t, v)), rest)
    ensures ParseExpr(lad, CompoundText(lad, t, s, v) + rest)
            == if Clonable(t) then ParseExpr(lad, PlainText(lad, t, op, v) + rest) else Err(rest)
  {
    hide ParseExpr, Print, Sign, Spell, PrintAt, Level, BinarySymbol, CompoundOf, Clonable, Clone;
    CompoundTokens(s, op);
    Ends(CompoundText(lad, t, s, v), rest);
    Ends(PlainText(lad, t, op, v), rest);
    PlainReadsBack(lad, t, op, v, rest);
    CompoundReadsBack(lad, t, s, op, v, rest);
  }

  lemma CompoundReadsBack(lad: Ladder, t: Expr, s: Symbol, op: BinaryOp, v: Expr, rest: seq<Token>)
    requires ExprOk(t) && ExprOk(v) && Terminated(rest) && EndsExpression(rest[0]) && CompoundOf(Sym(s)) == Some(op)
    ensures var toks := CompoundText(lad, t, s, v) + rest;
            && Terminated(toks)
            && ParseExpr(lad, toks) == if Clonable(t) then Ok(Assign(t, Binary(op, t, v)), rest) else Err(rest)
  {
    hide ParseExpr, ParseBinary, LoopBinary, Print, PrintAt, Clone, Clonable;
    var r1 := [Sym(s)] + (Print(lad, v) + rest);
    ExprReadsBack(lad, v, rest);
    Tail(Sym(s), Print(lad, v) + rest);
    CompoundStops(lad, t, r1, s);
    ReadsBack(lad, 1, t, r1);
    CloneIsExact(t);
    Cat3(PrintAt(lad, 1, t), [Sym(s)], Print(lad, v), rest);
    CompoundStep(lad, PrintAt(lad, 1, t) + r1, t, r1, v, rest);
  }

  lemma CompoundStops(lad: Ladder, t: Expr, toks: seq<Token>, s: Symbol)
    requires Terminated(toks) && toks[0] == Sym(s) && CompoundOf(Sym(s)).Some?
    ensures Quiet(lad, 1, toks[0]) && LoopBinary(lad, 1, t, toks) == Ok(t, toks)
  {}

  lemma CompoundStep(lad: Ladder, toks: seq<Token>, t: Expr, r1: seq<Token>, v: Expr, rest: seq<Token>)
    requires Terminated(toks) && Terminated(r1) && |r1| > 1 && Terminated(r1[1..]) && Terminated(rest)
    requires ParseBinary(lad, 1, toks) == Ok(t, r1) && ParseExpr(lad, r1[1..]) == Ok(v, rest) && CompoundOf(r1[0]).Some?
    ensures ParseExpr(lad, toks) == if Clone(t).None? then Err(rest)
                                    else Ok(Assign(t, Binary(CompoundOf(r1[0]).value, Clone(t).value, v)), rest)
  {
    hide ParseBinary, Clone;
  }

  lemma PlainReadsBack(lad: Ladder, t: Expr, op: BinaryOp, v: Expr, rest: seq<Token>)
    requires ExprOk(t) && ExprOk(v) && Terminated(rest) && EndsExpression(rest[0])
    ensures var toks := PlainText(lad, t, op, v) + rest;
            Terminated(toks) && ParseExpr(lad, toks) == Ok(Assign(t, Binary(op, t, v)), rest)
  {
    hide ParseExpr, ParseBinary, LoopBinary, ParseUnary, Print, PrintAt, ParseRight, ParsePrimary;
    var n := Level(lad, op);
    var inner := [Sym(LeftParen)] + Print(lad, v) + [Sym(RightParen)];
    var right := inner + rest;
    InParens(lad, v, rest);
    assert inner + rest == [Sym(LeftParen)] + Print(lad, v) + [Sym(RightParen)] + rest;
    EndIsQuiet(lad, n, rest[0]);
    ParenIsRight(lad, n, right, v, rest);
    BinaryStep(lad, op, t, right, v, rest);
    var r2 := [Sym(BinarySymbol(op))] + right;
    OperatorIsQuiet(lad, op);
    ReadsBack(lad, n, t, r2);
    var sum := PrintAt(lad, n, t) + r2;
    EndIsQuiet(lad, 1, rest[0]);
    UpFrom(lad, n, sum, Binary(op, t, v), rest);
    PlainStep(lad, sum, Binary(op, t, v), rest);
    var r1 := [Sym(Equal)] + sum;
    Tail(Sym(Equal), sum);
    EqualStops(lad, t, r1);
    ReadsBack(lad, 1, t, r1);
    AssignStep(lad, PrintAt(lad, 1, t) + r1, t, r1, Binary(op, t, v), rest);
    PlainShape(lad, t, op, v, rest);
  }

  lemma PlainShape(lad: Ladder, t: Expr, op: BinaryOp, v: Expr, rest: seq<Token>)
    requires ExprOk(t) && ExprOk(v)
    ensures PlainText(lad, t, op, v) + rest ==
            PrintAt(lad, 1, t) + ([Sym(Equal)] + (PrintAt(lad, Level(lad, op), t) + ([Sym(BinarySymbol(op))] +
              ([Sym(LeftParen)] + Print(lad, v) + [Sym(RightParen)] + rest))))
  {
    hide Print, PrintAt, Level, BinarySymbol;
    var a, b, c, d := PrintAt(lad, 1, t), [Sym(Equal)], PrintAt(lad, Level(lad, op), t), [Sym(BinarySymbol(op))];
    var i := [Sym(LeftParen)] + Print(lad, v) + [Sym(RightParen)];
    assert a + b + (c + d + i) + rest == a + (b + (c + (d + (i + rest))));
  }

  lemma ParenIsRight(lad: Ladder, n: nat, toks: seq<Token>, v: Expr, rest: seq<Token>)
    requires Terminated(toks) && Terminated(rest) && 1 <= n <= MULTIPLICATIVE && Quiet(lad, n, rest[0])
    requires ParsePrimary(lad, toks) == Ok(v, rest) && UnaryOf(toks[0]).None?
    ensures ParseRight(lad, n, toks) == Ok(v, rest)
  {
    hide ParseBinary, LoopBinary, ParseUnary, ParsePrimary;
    var k := RightLevel(lad, n);
    QuietBelow(lad, n, rest[0]);
    assert Quiet(lad, k, rest[0]);
    FromPrimary(lad, k, toks, v, rest);
    if n < MULTIPLICATIVE {
      Stops(lad, n, v, rest);
    }
  }

  /** What has been read at the level of a binary operator, in front of a token that ends expressions. */
  lemma {:induction false} UpFrom(lad: Ladder, n: nat, toks: seq<Token>, e: Expr, rest: seq<Token>)
    requires Terminated(toks) && Terminated(rest) && 1 <= n <= MULTIPLICATIVE && EndsExpression(rest[0])
    requires ParseBinary(lad, n, toks) == LoopBinary(lad, n, e, rest)
    ensures ParseBinary(lad, 1, toks) == LoopBinary(lad, 1, e, rest)
    decreases n
  {
    hide ParseBinary, LoopBinary, Quiet;
    if n > 1 {
      EndIsQuiet(lad, n - 1, rest[0]);
      Rise(lad, n - 1, toks, e, rest);
      UpFrom(lad, n - 1, toks, e, rest);
    }
  }

  // ----- the arrow -----

  /** `e->f` is read as `(*e).f` is. */
  lemma ArrowIsDereference(lad: Ladder, e: Expr, field: string, rest: seq<Token>)
    requires ExprOk(e) && Terminated(rest)
    ensures var arrow := PrintAt(lad, POSTFIX, e) + [Sym(Arrow), Ident(field)] + rest;
            var dot := [Sym(LeftParen), Sym(Star)] + PrintAt(lad, UNARY, e) + [Sym(RightParen), Sym(Dot), Ident(field)] + rest;
            && Terminated(arrow) && Terminated(dot)
            && ParsePostfix(lad, arrow) == ParsePostfix(lad, dot)
            && ParsePostfix(lad, dot) == LoopPostfix(lad, Member(Unary(Deref, e), field), rest)
  {
    hide ParsePostfix, LoopPostfix, Print;
    var m := Unary(Deref, e);
    var tail := [Sym(Arrow), Ident(field)] + rest;
    Tail2(Sym(Arrow), Ident(field), rest);
    ReadsBack(lad, POSTFIX, e, tail);
    assert PrintAt(lad, POSTFIX, e) + [Sym(Arrow), Ident(field)] + rest == PrintAt(lad, POSTFIX, e) + tail;
    ArrowStep(lad, e, field, rest);
    MemberReadsBack(lad, m, field, rest);
    DerefPrint(lad, e);
    var dot := [Sym(LeftParen), Sym(Star)] + PrintAt(lad, UNARY, e) + [Sym(RightParen), Sym(Dot), Ident(field)] + rest;
    MemberPrint(lad, m, field);
    assert Print(lad, Member(m, field)) + rest == dot;
  }

  lemma ArrowStep(lad: Ladder, e: Expr, field: string, rest: seq<Token>)
    requires Terminated(rest)
    ensures Terminated([Sym(Arrow), Ident(field)] + rest)
    ensures LoopPostfix(lad, e, [Sym(Arrow), Ident(field)] + rest) == LoopPostfix(lad, Member(Unary(Deref, e), field), rest)
  {
    Tail2(Sym(Arrow), Ident(field), rest);
  }

  lemma DerefPrint(lad: Ladder, e: Expr)
    requires ExprOk(e)
    ensures PrintAt(lad, POSTFIX, Unary(Deref, e))
            == [Sym(LeftParen), Sym(Star)] + PrintAt(lad, UNARY, e) + [Sym(RightParen)]
  {}

  lemma MemberPrint(lad: Ladder, o: Expr, field: string)
    requires ExprOk(o)
    ensures Print(lad, Member(o, field)) == PrintAt(lad, POSTFIX, o) + [Sym(Dot), Ident(field)]
  {}

  // ----- closing commas -----

  /** A comma behind the last element of an array literal changes nothing. */
  lemma {:induction false} ClosingCommaInElements(lad: Ladder, elems: Args, rest: seq<Token>)
    requires ArgsOk(elems) && NoTypeArgs(elems) && elems.Arg? && Terminated(rest)
    ensures var toks := PrintArgs(lad, elems) + [Sym(Comma), Sym(RightBracket)] + rest;
            && Terminated(toks) && toks[0] != Sym(RightBracket)
            && ParseElements(lad, toks) == Ok(elems, [Sym(RightBracket)] + rest)
    decreases elems
  {
    hide ParseExpr, Print, ParseElements, PrintArgs;
    var close := [Sym(Comma), Sym(RightBracket)] + rest;
    Tail2(Sym(Comma), Sym(RightBracket), rest);
    Tail(Sym(RightBracket), rest);
    ExprStart(lad, ASSIGNMENT, elems.head);
    assert PrintArgs(lad, elems) + [Sym(Comma), Sym(RightBracket)] + rest == PrintArgs(lad, elems) + close;
    ElementsPrint(lad, elems, close);
    if elems.tail.NoArgs? {
      ExprReadsBack(lad, elems.head, close);
      LastElementStep(lad, Print(lad, elems.head) + close, elems.head, [Sym(RightBracket)] + rest);
    } else {
      var more := PrintArgs(lad, elems.tail) + close;
      ClosingCommaInElements(lad, elems.tail, rest);
      assert PrintArgs(lad, elems.tail) + [Sym(Comma), Sym(RightBracket)] + rest == more;
      Tail(Sym(Comma), more);
      ExprReadsBack(lad, elems.head, [Sym(Comma)] + more);
      ElementStep(lad, Print(lad, elems.head) + ([Sym(Comma)] + more), elems.head, more, elems.tail, [Sym(RightBracket)] + rest);
    }
  }

  lemma ElementsPrint(lad: Ladder, elems: Args, rest: seq<Token>)
    requires ArgsOk(elems) && elems.Arg?
    ensures PrintArgs(lad, elems) + rest == Print(lad, elems.head) +
              if elems.tail.NoArgs? then rest else [Sym(Comma)] + (PrintArgs(lad, elems.tail) + rest)
    ensures PrintAt(lad, ASSIGNMENT, elems.head) == Print(lad, elems.head)
  {
    hide Print;
    assert PrintArg(lad, elems) == Print(lad, elems.head);
    if !elems.tail.NoArgs? {
      assert PrintArgs(lad, elems) == Print(lad, elems.head) + [Sym(Comma)] + PrintArgs(lad, elems.tail);
      Cat3(Print(lad, elems.head), [Sym(Comma)], PrintArgs(lad, elems.tail), rest);
    }
  }

  lemma LastElementStep(lad: Ladder, toks: seq<Token>, e: Expr, rest: seq<Token>)
    requires Terminated(toks) && Terminated(rest) && rest[0] == Sym(RightBracket)
    requires Terminated([Sym(Comma)] + rest) && ParseExpr(lad, toks) == Ok(e, [Sym(Comma)] + rest)
    ensures ParseElements(lad, toks) == Ok(Arg(e, NoArgs), rest)
  {
    hide ParseExpr;
    Tail(Sym(Comma), rest);
  }

  lemma ElementStep(lad: Ladder, toks: seq<Token>, e: Expr, r1: seq<Token>, more: Args, rest: seq<Token>)
    requires Terminated(toks) && Terminated(r1) && Terminated(rest) && r1[0] != Sym(RightBracket)
    requires ParseExpr(lad, toks) == Ok(e, [Sym(Comma)] + r1) && ParseElements(lad, r1) == Ok(more, rest)
    ensures ParseElements(lad, toks) == Ok(Arg(e, more), rest)
  {
    hide ParseExpr;
    Tail(Sym(Comma), r1);
  }

  /** `[a, b,]` is read as `[a, b]` is. */
  lemma ClosingCommaInArray(lad: Ladder, elems: Args, rest: seq<Token>)
    requires ArgsOk(elems) && NoTypeArgs(elems) && elems.Arg? && Terminated(rest) && rest[0] != Sym(LeftBrace)
    ensures var with := [Sym(LeftBracket)] + PrintArgs(lad, elems) + [Sym(Comma), Sym(RightBracket)] + rest;
            var without := [Sym(LeftBracket)] + PrintArgs(lad, elems) + [Sym(RightBracket)] + rest;
            && Terminated(with) && Terminated(without)
            && ParsePrimary(lad, with) == ParsePrimary(lad, without) == Ok(ArrayLiteral(elems), rest)
  {
    hide ParseElements, PrintArgs;
    var inner := PrintArgs(lad, elems) + [Sym(Comma), Sym(RightBracket)] + rest;
    ClosingCommaInElements(lad, elems, rest);
    ArrayLiteralStep(lad, elems, inner, rest);
    assert [Sym(LeftBracket)] + PrintArgs(lad, elems) + [Sym(Comma), Sym(RightBracket)] + rest == [Sym(LeftBracket)] + inner;
    Atom(lad, ArrayLiteral(elems), rest);
  }

  /** A comma behind the last field of a struct literal changes nothing. */
  lemma {:induction false} ClosingCommaInFields(lad: Ladder, f: Fields, rest: seq<Token>)
    requires FieldsOk(f) && f.Field? && Terminated(rest)
    ensures var toks := PrintFields(lad, f) + [Sym(Comma), Sym(RightBrace)] + rest;
            && Terminated(toks) && |toks| > 1 && toks[0].Ident? && toks[1] == Sym(Colon)
            && ParseFields(lad, toks) == Ok(f, [Sym(RightBrace)] + rest)
    decreases f
  {
    hide ParseExpr, ParseFields, Print, PrintFields;
    var close := [Sym(Comma), Sym(RightBrace)] + rest;
    Tail2(Sym(Comma), Sym(RightBrace), rest);
    FieldsPrint(lad, f, close);
    assert PrintFields(lad, f) + [Sym(Comma), Sym(RightBrace)] + rest == PrintFields(lad, f) + close;
    if f.rest.NoFields? {
      ExprReadsBack(lad, f.value, close);
      ClosingFieldStep(lad, f.name, Print(lad, f.value) + close, f.value, rest);
    } else {
      var r1 := PrintFields(lad, f.rest) + close;
      ClosingCommaInFields(lad, f.rest, rest);
      assert PrintFields(lad, f.rest) + [Sym(Comma), Sym(RightBrace)] + rest == r1;
      Tail(Sym(Comma), r1);
      ExprReadsBack(lad, f.value, [Sym(Comma)] + r1);
      FieldStep(lad, f.name, Print(lad, f.value) + ([Sym(Comma)] + r1), f.value, r1, f.rest, [Sym(RightBrace)] + rest);
    }
  }

  lemma ClosingFieldStep(lad: Ladder, name: string, toks: seq<Token>, v: Expr, rest: seq<Token>)
    requires Terminated(toks) && Terminated(rest)
    requires Terminated([Sym(Comma), Sym(RightBrace)] + rest)
    requires ParseExpr(lad, toks) == Ok(v, [Sym(Comma), Sym(RightBrace)] + rest)
    ensures Terminated([Ident(name), Sym(Colon)] + toks)
    ensures ParseFields(lad, [Ident(name), Sym(Colon)] + toks) == Ok(Field(name, v, NoFields), [Sym(RightBrace)] + rest)
  {
    hide ParseExpr;
    Tail2(Sym(Comma), Sym(RightBrace), rest);
    Tail2(Ident(name), Sym(Colon), toks);
  }

  /** `S { a: 1, }` is read as `S { a: 1 }` is. */
  lemma ClosingCommaInStruct(lad: Ladder, name: string, f: Fields, rest: seq<Token>)
    requires FieldsOk(f) && f.Field? && Terminated(rest)
    ensures var with := [Ident(name), Sym(LeftBrace)] + PrintFields(lad, f) + [Sym(Comma), Sym(RightBrace)] + rest;
            var without := [Ident(name), Sym(LeftBrace)] + PrintFields(lad, f) + [Sym(RightBrace)] + rest;
            && Terminated(with) && Terminated(without)
            && ParsePrimary(lad, with) == ParsePrimary(lad, without) == Ok(StructLiteral(name, f), rest)
  {
    hide ParseFields, PrintFields, ParsePrimary;
    var inner := PrintFields(lad, f) + [Sym(Comma), Sym(RightBrace)] + rest;
    ClosingCommaInFields(lad, f, rest);
    StructStep(lad, name, f, inner, rest);
    var h := [Ident(name), Sym(LeftBrace)];
    assert h + PrintFields(lad, f) + [Sym(Comma), Sym(RightBrace)] + rest == h + inner;
    StructReadsBack(lad, name, f, rest);
  }

  /** Arguments have no closing comma: `f(a,)` is rejected at the parenthesis. */
  lemma NoClosingCommaInCall(lad: Ladder, f: Expr, a: Expr, rest: seq<Token>)
    requires ExprOk(a) && Terminated(rest)
    ensures var toks := [Sym(LeftParen)] + Print(lad, a) + [Sym(Comma), Sym(RightParen)] + rest;
            Terminated(toks) && LoopPostfix(lad, f, toks) == Err([Sym(RightParen)] + rest)
  {
    hide ParseExpr, Print, ParseArgs;
    var last := [Sym(RightParen)] + rest;
    var close := [Sym(Comma)] + last;
    Tail(Sym(RightParen), rest);
    Tail(Sym(Comma), last);
    ExprStart(lad, ASSIGNMENT, a);
    assert PrintAt(lad, ASSIGNMENT, a) == Print(lad, a);
    ExprReadsBack(lad, a, close);
    var inner := Print(lad, a) + close;
    Tail(Sym(LeftParen), inner);
    assert [Sym(LeftParen)] + Print(lad, a) + [Sym(Comma), Sym(RightParen)] + rest == [Sym(LeftParen)] + inner;
    NothingThere(lad, last);
    ArgsFail(lad, inner, a, last);
    CallFails(lad, f, inner, last);
  }

  lemma ArgsFail(lad: Ladder, toks: seq<Token>, a: Expr, last: seq<Token>)
    requires Terminated(toks) && toks[0] != Sym(At) && Terminated(last) && last[0] == Sym(RightParen)
    requires Terminated([Sym(Comma)] + last) && ParseExpr(lad, toks) == Ok(a, [Sym(Comma)] + last)
    requires ParseExpr(lad, last) == Err(last)
    ensures ParseArgs(lad, toks) == Err(last)
  {
    hide ParseExpr;
    Tail(Sym(Comma), last);
    assert ParseArg(lad, toks) == Ok(Arg(a, NoArgs), [Sym(Comma)] + last);
    assert ParseArgs(lad, last) == Err(last);
  }

  lemma CallFails(lad: Ladder, f: Expr, inner: seq<Token>, last: seq<Token>)
    requires Terminated(inner) && Terminated(last) && inner[0] != Sym(RightParen) && ParseArgs(lad, inner) == Err(last)
    ensures Terminated([Sym(LeftParen)] + inner) && LoopPostfix(lad, f, [Sym(LeftParen)] + inner) == Err(last)
  {
    hide ParseArgs;
    Tail(Sym(LeftParen), inner);
  }

  /** Where no expression starts, nothing is read. */
  lemma NothingThere(lad: Ladder, toks: seq<Token>)
    requires Terminated(toks) && toks[0] == Sym(RightParen)
    ensures ParseExpr(lad, toks) == Err(toks)
  {
    hide ParseBinary;
    NothingAt(lad, 1, toks);
  }

  lemma {:induction false} NothingAt(lad: Ladder, level: nat, toks: seq<Token>)
    requires Terminated(toks) && toks[0] == Sym(RightParen) && 1 <= level <= MULTIPLICATIVE
    ensures ParseBinary(lad, level, toks) == Err(toks)
    decreases MULTIPLICATIVE - level
  {
    if level < MULTIPLICATIVE {
      NothingAt(lad, level + 1, toks);
    } else {
      NoCast(lad, toks);
    }
  }

  lemma NoCast(lad: Ladder, toks: seq<Token>)
    requires Terminated(toks) && toks[0] == Sym(RightParen)
    ensures ParseCast(lad, toks) == Err(toks)
  {
    assert ParsePrimary(lad, toks) == Err(toks);
    assert ParsePostfix(lad, toks) == Err(toks);
  }
}
