/** Tokens, types and expressions of truk, and the operator tables. */
module ExprSyntax {
  import opened Options

  /** Punctuation and operators. */
  datatype Symbol =
    | Plus | Minus | Star | Slash | Percent
    | Equal | PlusEqual | MinusEqual | StarEqual | SlashEqual | PercentEqual
    | EqualEqual | BangEqual | Less | LessEqual | Greater | GreaterEqual
    | AmpAmp | PipePipe | Bang | Amp | Pipe | Caret | Tilde | LessLess | GreaterGreater
    | LeftParen | RightParen | LeftBrace | RightBrace | LeftBracket | RightBracket
    | Comma | Semicolon | Colon | Dot | Arrow | FatArrow | At

  datatype Word = AsKw | TrueKw | FalseKw | NilKw | FnKw | MapKw | PrimitiveKw(name: string) | OtherKw

  datatype Number = Integer | Float | Text | Character

  datatype Token = Sym(s: Symbol) | Ident(name: string) | Lit(kind: Number, lexeme: string) | Kw(w: Word) | Eof

  datatype UnaryOp = Not | Neg | BitNot | AddressOf | Deref

  datatype BinaryOp =
    | Or | And | Eq | Ne | Lt | Le | Gt | Ge | BitOr | BitXor | BitAnd | Shl | Shr | Add | Sub | Mul | Div | Mod

  /** A type node; `Broken` stands for the null that parse_type returns when a type cannot be parsed. The
      size of an array is kept as it is written. */
  datatype Type =
    | Primitive(name: string)
    | Named(id: string)
    | Pointer(to: Type)
    | ArrayOf(size: Option<string>, of: Type)
    | MapOf(key: Type, value: Type)
    | TupleOf(elems: Types)
    | Function(params: Types, ret: Type)
    | Broken

  datatype Types = NoTypes | OneType(head: Type, tail: Types)

  datatype Expr =
    | Number(kind: Number, lexeme: string)
    | Bool(b: bool)
    | Nil
    | Name(id: string)
    | Unary(uop: UnaryOp, operand: Expr)
    | Binary(op: BinaryOp, left: Expr, right: Expr)
    | Cast(inner: Expr, target: Type)
    | Call(callee: Expr, args: Args)
    | Index(obj: Expr, idx: Expr)
    | Member(obj: Expr, field: string)
    | Assign(location: Expr, value: Expr)
    | ArrayLiteral(elems: Args)
    | StructLiteral(name: string, fields: Fields)

  /** Arguments of a call; `@T` passes a type. */
  datatype Args = NoArgs | Arg(head: Expr, tail: Args) | TypeArg(ty: Type, tail: Args)

  datatype Fields = NoFields | Field(name: string, value: Expr, rest: Fields)

  // ----- operator tables -----

  /** truk's ladder, and the one of C (section 6.5 of ISO/IEC 9899), where `&`, `^` and `|` bind looser than
      the comparisons. */
  datatype Ladder = Truk | C

  const ASSIGNMENT := 0
  const MULTIPLICATIVE := 10
  const CAST := 11
  const UNARY := 12
  const POSTFIX := 13
  const PRIMARY := 14

  /** The level of a binary operator, from 1 for the loosest to 10 for the tightest. */
  function Level(lad: Ladder, op: BinaryOp): (n: nat)
    ensures 1 <= n <= MULTIPLICATIVE
  {
    match op
    case Or => 1
    case And => 2
    case Eq => if lad.Truk? then 3 else 6
    case Ne => if lad.Truk? then 3 else 6
    case Lt => if lad.Truk? then 4 else 7
    case Le => if lad.Truk? then 4 else 7
    case Gt => if lad.Truk? then 4 else 7
    case Ge => if lad.Truk? then 4 else 7
    case BitOr => if lad.Truk? then 5 else 3
    case BitXor => if lad.Truk? then 6 else 4
    case BitAnd => if lad.Truk? then 7 else 5
    case Shl => 8
    case Shr => 8
    case Add => 9
    case Sub => 9
    case Mul => 10
    case Div => 10
    case Mod => 10
  }

  /** The level at which the right operand is read: one tighter, except that truk reads the right operand of
      `*`, `/` and `%` as a unary expression. */
  function RightLevel(lad: Ladder, level: nat): nat {
    if level == MULTIPLICATIVE then UNARY else level + 1
  }

  function BinarySymbol(op: BinaryOp): Symbol {
    match op
    case Or => PipePipe
    case And => AmpAmp
    case Eq => EqualEqual
    case Ne => BangEqual
    case Lt => Less
    case Le => LessEqual
    case Gt => Greater
    case Ge => GreaterEqual
    case BitOr => Pipe
    case BitXor => Caret
    case BitAnd => Amp
    case Shl => LessLess
    case Shr => GreaterGreater
    case Add => Plus
    case Sub => Minus
    case Mul => Star
    case Div => Slash
    case Mod => Percent
  }

  /** The binary operator written with a token, if any. */
  function BinaryOf(t: Token): (r: Option<BinaryOp>)
    ensures r.Some? ==> t == Sym(BinarySymbol(r.value))
  {
    if !t.Sym? then None else
    match t.s
    case PipePipe => Some(Or)
    case AmpAmp => Some(And)
    case EqualEqual => Some(Eq)
    case BangEqual => Some(Ne)
    case Less => Some(Lt)
    case LessEqual => Some(Le)
    case Greater => Some(Gt)
    case GreaterEqual => Some(Ge)
    case Pipe => Some(BitOr)
    case Caret => Some(BitXor)
    case Amp => Some(BitAnd)
    case LessLess => Some(Shl)
    case GreaterGreater => Some(Shr)
    case Plus => Some(Add)
    case Minus => Some(Sub)
    case Star => Some(Mul)
    case Slash => Some(Div)
    case Percent => Some(Mod)
    case _ => None
  }

  lemma BinaryOfSymbol(op: BinaryOp)
    ensures BinaryOf(Sym(BinarySymbol(op))) == Some(op)
  {}

  /** The operator that the loop of a level consumes. */
  function OpAt(lad: Ladder, level: nat, t: Token): Option<BinaryOp> {
    var op := BinaryOf(t);
    if op.Some? && Level(lad, op.value) == level then op else None
  }

  function UnarySymbol(op: UnaryOp): Symbol {
    match op
    case Not => Bang
    case Neg => Minus
    case BitNot => Tilde
    case AddressOf => Amp
    case Deref => Star
  }

  function UnaryOf(t: Token): (r: Option<UnaryOp>)
    ensures r.Some? ==> t == Sym(UnarySymbol(r.value))
  {
    if !t.Sym? then None else
    match t.s
    case Bang => Some(Not)
    case Minus => Some(Neg)
    case Tilde => Some(BitNot)
    case Amp => Some(AddressOf)
    case Star => Some(Deref)
    case _ => None
  }

  /** The operator that a compound assignment combines with. */
  function CompoundOf(t: Token): Option<BinaryOp> {
    if !t.Sym? then None else
    match t.s
    case PlusEqual => Some(Add)
    case MinusEqual => Some(Sub)
    case StarEqual => Some(Mul)
    case SlashEqual => Some(Div)
    case PercentEqual => Some(Mod)
    case _ => None
  }

  // ----- copying the target of a compound assignment -----

  /** clone_expr_for_compound_assignment: None where the source returns null. */
  function Clone(e: Expr): Option<Expr> {
    match e
    case Name(id) => Some(Name(id))
    case Number(kind, lexeme) => Some(Number(kind, lexeme))
    case Bool(b) => Some(Bool(b))
    case Nil => Some(Nil)
    case Index(obj, idx) =>
      var o, i := Clone(obj), Clone(idx);
      if o.None? || i.None? then None else Some(Index(o.value, i.value))
    case Member(obj, field) =>
      var o := Clone(obj);
      if o.None? then None else Some(Member(o.value, field))
    case Unary(op, operand) =>
      if op != Deref then None else
      var x := Clone(operand);
      if x.None? then None else Some(Unary(Deref, x.value))
    case Binary(op, left, right) =>
      var l, r := Clone(left), Clone(right);
      if l.None? || r.None? then None else Some(Binary(op, l.value, r.value))
    case _ => None
  }

  /** Names, literals, index, member, dereference and binary expressions of such expressions. */
  predicate Clonable(e: Expr) {
    match e
    case Name(_) => true
    case Number(_, _) => true
    case Bool(_) => true
    case Nil => true
    case Index(obj, idx) => Clonable(obj) && Clonable(idx)
    case Member(obj, _) => Clonable(obj)
    case Unary(op, operand) => op == Deref && Clonable(operand)
    case Binary(_, left, right) => Clonable(left) && Clonable(right)
    case _ => false
  }

  /** The copy is equal to the original exactly on that grammar, and missing elsewhere. */
  lemma {:induction false} CloneIsExact(e: Expr)
    ensures Clone(e) == if Clonable(e) then Some(e) else None
  {
    match e
    case Index(obj, idx) => CloneIsExact(obj); CloneIsExact(idx);
    case Member(obj, _) => CloneIsExact(obj);
    case Unary(_, operand) => CloneIsExact(operand);
    case Binary(_, left, right) => CloneIsExact(left); CloneIsExact(right);
    case _ =>
  }

  /** An expression and everything it is made of. */
  function Parts(e: Expr): seq<Expr> {
    match e
    case Unary(_, x) => [e] + Parts(x)
    case Binary(_, l, r) => [e] + Parts(l) + Parts(r)
    case Cast(x, _) => [e] + Parts(x)
    case Call(f, args) => [e] + Parts(f) + ArgParts(args)
    case Index(o, i) => [e] + Parts(o) + Parts(i)
    case Member(o, _) => [e] + Parts(o)
    case Assign(t, v) => [e] + Parts(t) + Parts(v)
    case ArrayLiteral(elems) => [e] + ArgParts(elems)
    case StructLiteral(_, fields) => [e] + FieldParts(fields)
    case _ => [e]
  }

  function ArgParts(a: Args): seq<Expr> {
    match a
    case NoArgs => []
    case Arg(e, tail) => Parts(e) + ArgParts(tail)
    case TypeArg(_, tail) => ArgParts(tail)
  }

  function FieldParts(f: Fields): seq<Expr> {
    if f.NoFields? then [] else Parts(f.value) + FieldParts(f.rest)
  }

  /** What cannot be copied: calls, casts, assignments, array and struct literals, and prefix operators other than `*`. */
  predicate BarsCopy(e: Expr) {
    || e.Call? || e.Cast? || e.Assign? || e.ArrayLiteral? || e.StructLiteral?
    || (e.Unary? && (e.uop == Not || e.uop == Neg || e.uop == BitNot || e.uop == AddressOf))
  }

  /** An expression can be copied exactly when nothing in it bars that. */
  lemma {:induction false} ClonableIsFree(e: Expr)
    ensures Clonable(e) <==> forall x :: x in Parts(e) ==> !BarsCopy(x)
  {
    assert e in Parts(e);
    if !BarsCopy(e) {
      match e
      case Unary(_, x) => ClonableIsFree(x);
      case Binary(_, l, r) => ClonableIsFree(l); ClonableIsFree(r);
      case Index(o, i) => ClonableIsFree(o); ClonableIsFree(i);
      case Member(o, _) => ClonableIsFree(o);
      case Number(_, _) => assert Parts(e) == [e];
      case Bool(_) => assert Parts(e) == [e];
      case Nil => assert Parts(e) == [e];
      case Name(_) => assert Parts(e) == [e];
      case _ =>
    }
  }
}
