/** The expression grammar as functions from the tokens still to be read to a tree and the tokens left. */
module ExprGrammar {
  import opened Options
  import opened ExprSyntax

  /** The tokens left, after success or where an error was thrown. */
  datatype Parse<+T> = Ok(value: T, rest: seq<Token>) | Err(rest: seq<Token>)

  predicate Terminated(toks: seq<Token>) {
    toks != [] && toks[|toks| - 1] == Eof
  }

  /** What every parsing function does to the tokens. */
  predicate Consumes<T>(r: Parse<T>, toks: seq<Token>) {
    Terminated(r.rest) && |r.rest| <= |toks| && (r.Ok? ==> |r.rest| < |toks|)
  }

  /** What a loop does that may also read nothing. */
  predicate Continues<T>(r: Parse<T>, toks: seq<Token>) {
    Terminated(r.rest) && |r.rest| <= |toks|
  }

  // ----- assignment and the binary levels -----

  function ParseExpr(lad: Ladder, toks: seq<Token>): (r: Parse<Expr>)
    requires Terminated(toks)
    ensures Consumes(r, toks)
    decreases |toks|, 20
  {
    var l := ParseBinary(lad, 1, toks);
    if l.Err? then l
    else if l.rest[0] != Sym(Equal) && CompoundOf(l.rest[0]).None? then l
    else
      var v := ParseExpr(lad, l.rest[1..]);
      if v.Err? then v else Assignment(l.value, l.rest[0], v)
  }

  function Assignment(location: Expr, t: Token, v: Parse<Expr>): (r: Parse<Expr>)
    requires v.Ok?
    ensures r.rest == v.rest
  {
    var op := CompoundOf(t);
    if op.None? then Ok(Assign(location, v.value), v.rest)
    else
      var copy := Clone(location);
      if copy.None? then Err(v.rest) else Ok(Assign(location, Binary(op.value, copy.value, v.value)), v.rest)
  }

  function ParseBinary(lad: Ladder, level: nat, toks: seq<Token>): (r: Parse<Expr>)
    requires Terminated(toks) && 1 <= level <= MULTIPLICATIVE
    ensures Consumes(r, toks)
    decreases |toks|, 18 - level
  {
    var l := if level == MULTIPLICATIVE then ParseCast(lad, toks) else ParseBinary(lad, level + 1, toks);
    if l.Err? then l else LoopBinary(lad, level, l.value, l.rest)
  }

  function ParseRight(lad: Ladder, level: nat, toks: seq<Token>): (r: Parse<Expr>)
    requires Terminated(toks) && 1 <= level <= MULTIPLICATIVE
    ensures Consumes(r, toks)
    decreases |toks|, 18
  {
    if level == MULTIPLICATIVE then ParseUnary(lad, toks) else ParseBinary(lad, level + 1, toks)
  }

  function LoopBinary(lad: Ladder, level: nat, left: Expr, toks: seq<Token>): (r: Parse<Expr>)
    requires Terminated(toks) && 1 <= level <= MULTIPLICATIVE
    ensures Continues(r, toks)
    decreases |toks|, 0
  {
    var op := OpAt(lad, level, toks[0]);
    if op.None? then Ok(left, toks)
    else
      var right := ParseRight(lad, level, toks[1..]);
      if right.Err? then right else LoopBinary(lad, level, Binary(op.value, left, right.value), right.rest)
  }

  // ----- casts, prefix and postfix operators -----

  function ParseCast(lad: Ladder, toks: seq<Token>): (r: Parse<Expr>)
    requires Terminated(toks)
    ensures Consumes(r, toks)
    decreases |toks|, 7
  {
    var e := ParseUnary(lad, toks);
    if e.Err? then e else LoopCast(lad, e.value, e.rest)
  }

  function LoopCast(lad: Ladder, e: Expr, toks: seq<Token>): (r: Parse<Expr>)
    requires Terminated(toks)
    ensures Continues(r, toks)
    decreases |toks|, 0
  {
    if toks[0] != Kw(AsKw) then Ok(e, toks)
    else
      var t := ParseTypeOrBroken(lad, toks[1..]);
      LoopCast(lad, Cast(e, t.value), t.rest)
  }

  function ParseUnary(lad: Ladder, toks: seq<Token>): (r: Parse<Expr>)
    requires Terminated(toks)
    ensures Consumes(r, toks)
    decreases |toks|, 6
  {
    var op := UnaryOf(toks[0]);
    if op.None? then ParsePostfix(lad, toks)
    else
      var e := ParseUnary(lad, toks[1..]);
      if e.Err? then e else Ok(Unary(op.value, e.value), e.rest)
  }

  function ParsePostfix(lad: Ladder, toks: seq<Token>): (r: Parse<Expr>)
    requires Terminated(toks)
    ensures Consumes(r, toks)
    decreases |toks|, 5
  {
    var e := ParsePrimary(lad, toks);
    if e.Err? then e else LoopPostfix(lad, e.value, e.rest)
  }

  function LoopPostfix(lad: Ladder, e: Expr, toks: seq<Token>): (r: Parse<Expr>)
    requires Terminated(toks)
    ensures Continues(r, toks)
    decreases |toks|, 1
  {
    var s := PostfixStep(lad, e, toks);
    if s.None? then Ok(e, toks)
    else if s.value.Err? then s.value
    else LoopPostfix(lad, s.value.value, s.value.rest)
  }

  /** One call, index or member access behind `e`; None when no such thing follows. */
  function PostfixStep(lad: Ladder, e: Expr, toks: seq<Token>): (r: Option<Parse<Expr>>)
    requires Terminated(toks)
    ensures r.Some? ==> Consumes(r.value, toks)
    decreases |toks|, 0
  {
    match toks[0]
    case Sym(LeftParen) =>
      if toks[1] == Sym(RightParen) then Some(Ok(Call(e, NoArgs), toks[2..]))
      else
        var a := ParseArgs(lad, toks[1..]);
        Some(if a.Err? then Err(a.rest)
             else if a.rest[0] != Sym(RightParen) then Err(a.rest)
             else Ok(Call(e, a.value), a.rest[1..]))
    case Sym(LeftBracket) =>
      var i := ParseExpr(lad, toks[1..]);
      Some(if i.Err? then i
           else if i.rest[0] != Sym(RightBracket) then Err(i.rest)
           else Ok(Index(e, i.value), i.rest[1..]))
    case Sym(Dot) =>
      Some(if toks[1].Ident? then Ok(Member(e, toks[1].name), toks[2..]) else Err(toks[1..]))
    case Sym(Arrow) =>
      Some(if toks[1].Ident? then Ok(Member(Unary(Deref, e), toks[1].name), toks[2..]) else Err(toks[1..]))
    case _ => None
  }

  // ----- primary expressions -----

  function ParsePrimary(lad: Ladder, toks: seq<Token>): (r: Parse<Expr>)
    requires Terminated(toks)
    ensures Consumes(r, toks)
    decreases |toks|, 4
  {
    match toks[0]
    case Lit(kind, lexeme) => Ok(Number(kind, lexeme), toks[1..])
    case Kw(TrueKw) => Ok(Bool(true), toks[1..])
    case Kw(FalseKw) => Ok(Bool(false), toks[1..])
    case Kw(NilKw) => Ok(Nil, toks[1..])
    case Ident(name) => if StructAhead(toks) then ParseStruct(lad, toks) else Ok(Name(name), toks[1..])
    case Sym(LeftParen) =>
      var e := ParseExpr(lad, toks[1..]);
      if e.Err? then e else if e.rest[0] != Sym(RightParen) then Err(e.rest) else Ok(e.value, e.rest[1..])
    case Sym(LeftBracket) =>
      if toks[1] == Sym(RightBracket) then Ok(ArrayLiteral(NoArgs), toks[2..])
      else
        var a := ParseElements(lad, toks[1..]);
        if a.Err? then Err(a.rest)
        else if a.rest[0] != Sym(RightBracket) then Err(a.rest)
        else Ok(ArrayLiteral(a.value), a.rest[1..])
    case _ => Err(toks)
  }

  /** The lookahead behind a name: `{}` followed by a token that ends an expression, or `{ name` followed by
      `:`, `}` or `,`. */
  predicate StructAhead(toks: seq<Token>)
    requires Terminated(toks) && toks[0].Ident?
  {
    && toks[1] == Sym(LeftBrace)
    && (if toks[2] == Sym(RightBrace) then EndsExpression(toks[3])
        else toks[2].Ident? && toks[3] in {Sym(Colon), Sym(RightBrace), Sym(Comma)})
  }

  predicate EndsExpression(t: Token) {
    t in {Sym(Semicolon), Sym(Comma), Sym(RightParen), Sym(RightBracket), Sym(RightBrace), Eof}
  }

  function ParseStruct(lad: Ladder, toks: seq<Token>): (r: Parse<Expr>)
    requires Terminated(toks) && toks[0].Ident? && StructAhead(toks)
    ensures Consumes(r, toks)
    decreases |toks|, 0
  {
    if toks[2] == Sym(RightBrace) then Ok(StructLiteral(toks[0].name, NoFields), toks[3..])
    else
      var f := ParseFields(lad, toks[2..]);
      if f.Err? then Err(f.rest)
      else if f.rest[0] != Sym(RightBrace) then Err(f.rest)
      else Ok(StructLiteral(toks[0].name, f.value), f.rest[1..])
  }

  function ParseFields(lad: Ladder, toks: seq<Token>): (r: Parse<Fields>)
    requires Terminated(toks)
    ensures Consumes(r, toks)
    decreases |toks|, 22
  {
    if !toks[0].Ident? then Err(toks)
    else if toks[1] != Sym(Colon) then Err(toks[1..])
    else
      var v := ParseExpr(lad, toks[2..]);
      if v.Err? then Err(v.rest)
      else if v.rest[0] != Sym(Comma) then Ok(Field(toks[0].name, v.value, NoFields), v.rest)
      else if v.rest[1] == Sym(RightBrace) then Ok(Field(toks[0].name, v.value, NoFields), v.rest[1..])
      else
        var f := ParseFields(lad, v.rest[1..]);
        if f.Err? then f else Ok(Field(toks[0].name, v.value, f.value), f.rest)
  }

  function ParseElements(lad: Ladder, toks: seq<Token>): (r: Parse<Args>)
    requires Terminated(toks)
    ensures Consumes(r, toks)
    decreases |toks|, 22
  {
    var e := ParseExpr(lad, toks);
    if e.Err? then Err(e.rest)
    else if e.rest[0] != Sym(Comma) then Ok(Arg(e.value, NoArgs), e.rest)
    else if e.rest[1] == Sym(RightBracket) then Ok(Arg(e.value, NoArgs), e.rest[1..])
    else
      var a := ParseElements(lad, e.rest[1..]);
      if a.Err? then a else Ok(Arg(e.value, a.value), a.rest)
  }

  function ParseArgs(lad: Ladder, toks: seq<Token>): (r: Parse<Args>)
    requires Terminated(toks)
    ensures Consumes(r, toks)
    decreases |toks|, 22
  {
    var one := ParseArg(lad, toks);
    if one.Err? || one.rest[0] != Sym(Comma) then one
    else
      var more := ParseArgs(lad, one.rest[1..]);
      if more.Err? then more else Ok(one.value.(tail := more.value), more.rest)
  }

  /** One argument, as a list. */
  function ParseArg(lad: Ladder, toks: seq<Token>): (r: Parse<Args>)
    requires Terminated(toks)
    ensures Consumes(r, toks) && (r.Ok? ==> !r.value.NoArgs? && r.value.tail == NoArgs)
    decreases |toks|, 21
  {
    if toks[0] == Sym(At) then
      var t := ParseType(lad, toks[1..]);
      if t.Err? then Err(t.rest) else Ok(TypeArg(t.value, NoArgs), t.rest)
    else
      var e := ParseExpr(lad, toks);
      if e.Err? then Err(e.rest) else Ok(Arg(e.value, NoArgs), e.rest)
  }

  // ----- types -----

  /** parse_type: errors are swallowed and leave the position where they happened. */
  function ParseTypeOrBroken(lad: Ladder, toks: seq<Token>): (r: Parse<Type>)
    requires Terminated(toks)
    ensures Continues(r, toks) && r.Ok?
    decreases |toks|, 4
  {
    var t := ParseType(lad, toks);
    if t.Err? then Ok(Broken, t.rest) else t
  }

  /** parse_type_internal. */
  function ParseType(lad: Ladder, toks: seq<Token>): (r: Parse<Type>)
    requires Terminated(toks)
    ensures Consumes(r, toks)
    decreases |toks|, 3
  {
    match toks[0]
    case Sym(Star) =>
      var t := ParseType(lad, toks[1..]);
      if t.Err? then t else Ok(Pointer(t.value), t.rest)
    case Sym(LeftBracket) => ParseArrayType(lad, toks)
    case Sym(LeftParen) => ParseTupleType(lad, toks)
    case Kw(FnKw) => ParseFunctionType(lad, toks)
    case Kw(MapKw) => ParseMapType(lad, toks)
    case Kw(PrimitiveKw(name)) => Ok(Primitive(name), toks[1..])
    case Ident(id) => Ok(Named(id), toks[1..])
    case _ => Err(toks)
  }

  function ParseArrayType(lad: Ladder, toks: seq<Token>): (r: Parse<Type>)
    requires Terminated(toks) && toks[0] == Sym(LeftBracket)
    ensures Consumes(r, toks)
    decreases |toks|, 2
  {
    if toks[1] == Sym(RightBracket) then
      var t := ParseType(lad, toks[2..]);
      if t.Err? then t else Ok(ArrayOf(None, t.value), t.rest)
    else
      var n := ParseExpr(lad, toks[1..]);
      if n.Err? then Err(n.rest)
      else if !(n.value.Number? && n.value.kind == Integer) then Err(n.rest)
      else if n.rest[0] != Sym(RightBracket) then Err(n.rest)
      else
        var t := ParseType(lad, n.rest[1..]);
        if t.Err? then t else Ok(ArrayOf(Some(n.value.lexeme), t.value), t.rest)
  }

  function ParseTupleType(lad: Ladder, toks: seq<Token>): (r: Parse<Type>)
    requires Terminated(toks) && toks[0] == Sym(LeftParen)
    ensures Consumes(r, toks)
    decreases |toks|, 2
  {
    if toks[1] == Sym(RightParen) then Err(toks[2..])
    else
      var ts := ParseTypes(lad, toks[1..]);
      if ts.Err? then Err(ts.rest)
      else if ts.rest[0] != Sym(RightParen) then Err(ts.rest)
      else if ts.value.NoTypes? || ts.value.tail.NoTypes? then Err(ts.rest[1..])
      else Ok(TupleOf(ts.value), ts.rest[1..])
  }

  function ParseTypes(lad: Ladder, toks: seq<Token>): (r: Parse<Types>)
    requires Terminated(toks)
    ensures Consumes(r, toks)
    decreases |toks|, 4
  {
    var t := ParseType(lad, toks);
    if t.Err? then Err(t.rest)
    else if t.rest[0] != Sym(Comma) then Ok(OneType(t.value, NoTypes), t.rest)
    else
      var ts := ParseTypes(lad, t.rest[1..]);
      if ts.Err? then ts else Ok(OneType(t.value, ts.value), ts.rest)
  }

  function ParseFunctionType(lad: Ladder, toks: seq<Token>): (r: Parse<Type>)
    requires Terminated(toks) && toks[0] == Kw(FnKw)
    ensures Consumes(r, toks)
    decreases |toks|, 2
  {
    if toks[1] != Sym(LeftParen) then Err(toks[1..])
    else
      var ps := if toks[2] == Sym(RightParen) then Ok(NoTypes, toks[2..]) else ParseParamTypes(lad, toks[2..]);
      if ps.rest[0] != Sym(RightParen) then Err(ps.rest)
      else if ps.rest[1] != Sym(Colon) then Ok(Function(ps.value, Primitive("void")), ps.rest[1..])
      else
        var t := ParseTypeOrBroken(lad, ps.rest[2..]);
        Ok(Function(ps.value, t.value), t.rest)
  }

  function ParseParamTypes(lad: Ladder, toks: seq<Token>): (r: Parse<Types>)
    requires Terminated(toks)
    ensures Continues(r, toks) && r.Ok?
    decreases |toks|, 5
  {
    var t := ParseTypeOrBroken(lad, toks);
    if t.rest[0] != Sym(Comma) then Ok(OneType(t.value, NoTypes), t.rest)
    else
      var ts := ParseParamTypes(lad, t.rest[1..]);
      Ok(OneType(t.value, ts.value), ts.rest)
  }

  function ParseMapType(lad: Ladder, toks: seq<Token>): (r: Parse<Type>)
    requires Terminated(toks) && toks[0] == Kw(MapKw)
    ensures Consumes(r, toks)
    decreases |toks|, 2
  {
    if toks[1] != Sym(LeftBracket) then Err(toks[1..])
    else
      var k := ParseType(lad, toks[2..]);
      if k.Err? then k
      else if k.rest[0] != Sym(Comma) then Err(k.rest)
      else
        var v := ParseType(lad, k.rest[1..]);
        if v.Err? then v
        else if v.rest[0] != Sym(RightBracket) then Err(v.rest)
        else Ok(MapOf(k.value, v.value), v.rest[1..])
  }
}
