/** Writing expressions: with the parentheses the ladder needs and no others, and the way the emitter does. */
module ExprPrint {
  import opened ExprSyntax

  // ----- types -----

  predicate TypeOk(t: Type) {
    match t
    case Primitive(_) => true
    case Named(_) => true
    case Pointer(to) => TypeOk(to)
    case ArrayOf(_, of) => TypeOk(of)
    case MapOf(k, v) => TypeOk(k) && TypeOk(v)
    case TupleOf(ts) => ts.OneType? && ts.tail.OneType? && TypesOk(ts)
    case Function(ps, r) => TypesOk(ps) && TypeOk(r)
    case Broken => false
  }

  predicate TypesOk(ts: Types) {
    ts.OneType? ==> TypeOk(ts.head) && TypesOk(ts.tail)
  }

  function PrintType(t: Type): seq<Token>
    requires TypeOk(t)
  {
    match t
    case Primitive(name) => [Kw(PrimitiveKw(name))]
    case Named(id) => [Ident(id)]
    case Pointer(to) => [Sym(Star)] + PrintType(to)
    case ArrayOf(size, of) =>
      [Sym(LeftBracket)] + (if size.Some? then [Lit(Integer, size.value)] else []) + [Sym(RightBracket)] + PrintType(of)
    case MapOf(k, v) =>
      [Kw(MapKw), Sym(LeftBracket)] + PrintType(k) + [Sym(Comma)] + PrintType(v) + [Sym(RightBracket)]
    case TupleOf(ts) => [Sym(LeftParen)] + PrintTypes(ts) + [Sym(RightParen)]
    case Function(ps, r) =>
      [Kw(FnKw), Sym(LeftParen)] + PrintTypes(ps) + [Sym(RightParen), Sym(Colon)] + PrintType(r)
  }

  function PrintTypes(ts: Types): seq<Token>
    requires TypesOk(ts)
  {
    if ts.NoTypes? then []
    else if ts.tail.NoTypes? then PrintType(ts.head)
    else PrintType(ts.head) + [Sym(Comma)] + PrintTypes(ts.tail)
  }

  // ----- expressions, with minimal parentheses -----

  /** Trees the parser can build: types are complete and array elements are not types. */
  predicate ExprOk(e: Expr) {
    match e
    case Unary(_, x) => ExprOk(x)
    case Binary(_, l, r) => ExprOk(l) && ExprOk(r)
    case Cast(x, t) => ExprOk(x) && TypeOk(t)
    case Call(f, args) => ExprOk(f) && ArgsOk(args)
    case Index(o, i) => ExprOk(o) && ExprOk(i)
    case Member(o, _) => ExprOk(o)
    case Assign(t, v) => ExprOk(t) && ExprOk(v)
    case ArrayLiteral(elems) => ArgsOk(elems) && NoTypeArgs(elems)
    case StructLiteral(_, fields) => FieldsOk(fields)
    case _ => true
  }

  predicate ArgsOk(a: Args) {
    match a
    case NoArgs => true
    case Arg(e, tail) => ExprOk(e) && ArgsOk(tail)
    case TypeArg(t, tail) => TypeOk(t) && ArgsOk(tail)
  }

  predicate NoTypeArgs(a: Args) {
    a.NoArgs? || (a.Arg? && NoTypeArgs(a.tail))
  }

  predicate FieldsOk(f: Fields) {
    f.Field? ==> ExprOk(f.value) && FieldsOk(f.rest)
  }

  /** The tightest level at which the expression can be read without parentheses. A struct literal without
      fields is recognised only in front of a token that ends an expression. */
  function Precedence(lad: Ladder, e: Expr): nat {
    match e
    case Assign(_, _) => ASSIGNMENT
    case Binary(op, _, _) => Level(lad, op)
    case Cast(_, _) => CAST
    case Unary(_, _) => UNARY
    case Call(_, _) => POSTFIX
    case Index(_, _) => POSTFIX
    case Member(_, _) => POSTFIX
    case StructLiteral(_, f) => if f.NoFields? then ASSIGNMENT else PRIMARY
    case _ => PRIMARY
  }

  function PrintAt(lad: Ladder, level: nat, e: Expr): seq<Token>
    requires ExprOk(e)
    decreases e, 1
  {
    if Precedence(lad, e) >= level then Print(lad, e) else [Sym(LeftParen)] + Print(lad, e) + [Sym(RightParen)]
  }

  function Print(lad: Ladder, e: Expr): seq<Token>
    requires ExprOk(e)
    decreases e, 0
  {
    match e
    case Number(kind, lexeme) => [Lit(kind, lexeme)]
    case Bool(b) => [Kw(if b then TrueKw else FalseKw)]
    case Nil => [Kw(NilKw)]
    case Name(id) => [Ident(id)]
    case Unary(op, x) => [Sym(UnarySymbol(op))] + PrintAt(lad, UNARY, x)
    case Binary(op, l, r) =>
      PrintAt(lad, Level(lad, op), l) + [Sym(BinarySymbol(op))] + PrintAt(lad, RightLevel(lad, Level(lad, op)), r)
    case Cast(x, t) => PrintAt(lad, CAST, x) + [Kw(AsKw)] + PrintType(t)
    case Call(f, args) => PrintAt(lad, POSTFIX, f) + [Sym(LeftParen)] + PrintArgs(lad, args) + [Sym(RightParen)]
    case Index(o, i) => PrintAt(lad, POSTFIX, o) + [Sym(LeftBracket)] + PrintAt(lad, ASSIGNMENT, i) + [Sym(RightBracket)]
    case Member(o, field) => PrintAt(lad, POSTFIX, o) + [Sym(Dot), Ident(field)]
    case Assign(t, v) => PrintAt(lad, 1, t) + [Sym(Equal)] + PrintAt(lad, ASSIGNMENT, v)
    case ArrayLiteral(elems) => [Sym(LeftBracket)] + PrintArgs(lad, elems) + [Sym(RightBracket)]
    case StructLiteral(name, fields) => [Ident(name), Sym(LeftBrace)] + PrintFields(lad, fields) + [Sym(RightBrace)]
  }

  function PrintArgs(lad: Ladder, a: Args): seq<Token>
    requires ArgsOk(a)
    decreases a, 0
  {
    if a.NoArgs? then []
    else if a.tail.NoArgs? then PrintArg(lad, a)
    else PrintArg(lad, a) + [Sym(Comma)] + PrintArgs(lad, a.tail)
  }

  function PrintArg(lad: Ladder, a: Args): seq<Token>
    requires ArgsOk(a) && !a.NoArgs?
    decreases a, -1
  {
    match a
    case Arg(e, _) => PrintAt(lad, ASSIGNMENT, e)
    case TypeArg(t, _) => [Sym(At)] + PrintType(t)
  }

  function PrintFields(lad: Ladder, f: Fields): seq<Token>
    requires FieldsOk(f)
    decreases f, 0
  {
    if f.NoFields? then []
    else
      [Ident(f.name), Sym(Colon)] + PrintAt(lad, ASSIGNMENT, f.value) +
      (if f.rest.NoFields? then [] else [Sym(Comma)] + PrintFields(lad, f.rest))
  }

  // ----- expressions, as the emitter writes them -----

  /** Names, literals, unary and binary operations, calls, index and member access. */
  predicate Emittable(e: Expr) {
    match e
    case Number(_, _) => true
    case Bool(_) => true
    case Nil => true
    case Name(_) => true
    case Unary(_, x) => Emittable(x)
    case Binary(_, l, r) => Emittable(l) && Emittable(r)
    case Call(f, args) => Emittable(f) && EmittableArgs(args)
    case Index(o, i) => Emittable(o) && Emittable(i)
    case Member(o, _) => Emittable(o)
    case _ => false
  }

  predicate EmittableArgs(a: Args) {
    a.NoArgs? || (a.Arg? && Emittable(a.head) && EmittableArgs(a.tail))
  }

  /** emit_expression: parentheses around every unary and binary operation, none elsewhere. */
  function Emit(e: Expr): seq<Token>
    requires Emittable(e)
  {
    match e
    case Number(kind, lexeme) => [Lit(kind, lexeme)]
    case Bool(b) => [Kw(if b then TrueKw else FalseKw)]
    case Nil => [Kw(NilKw)]
    case Name(id) => [Ident(id)]
    case Unary(op, x) => [Sym(LeftParen), Sym(UnarySymbol(op))] + Emit(x) + [Sym(RightParen)]
    case Binary(op, l, r) => [Sym(LeftParen)] + Emit(l) + [Sym(BinarySymbol(op))] + Emit(r) + [Sym(RightParen)]
    case Call(f, args) => Emit(f) + [Sym(LeftParen)] + EmitArgs(args) + [Sym(RightParen)]
    case Index(o, i) => Emit(o) + [Sym(LeftBracket)] + Emit(i) + [Sym(RightBracket)]
    case Member(o, field) => Emit(o) + [Sym(Dot), Ident(field)]
  }

  function EmitArgs(a: Args): seq<Token>
    requires EmittableArgs(a)
  {
    if a.NoArgs? then []
    else if a.tail.NoArgs? then Emit(a.head)
    else Emit(a.head) + [Sym(Comma)] + EmitArgs(a.tail)
  }
}
