/** Statements of a truk body as the parser builds them, with expressions left abstract.

    Of an expression only its identity and its names are known; what it computes is given by an `Env` (module
    DeferSource). Two families of expressions matter to the lowering: those returned by `return`, because a call
    is treated differently from any other single expression, and everything else. */
module DeferSyntax {
  import opened Options

  /** An expression, or a declaration with its initialiser. `uses` are the variables and functions it names,
      `declares` the names it introduces. `own` tells that the emitted initialiser stands behind its own
      declarator, as in `T x = ...;`: true of var, const and a let of one name, false of a let of several
      names, whose initialiser goes to a temporary first. `binds` is filled in when names are resolved: for each
      used name the declaration it denotes; names that stand for no local declaration are missing. */
  datatype Expr = Expr(id: nat, uses: set<string>, declares: seq<string>, own: bool, binds: map<string, nat>)

  /** The four shapes of `return`: none, one call, one other expression, several expressions. */
  datatype Returned = Void | Call(e: Expr) | Plain(e: Expr) | Tuple(es: seq<Expr>)

  datatype Stmt =
    | Action(a: Expr)
    | Defer(code: Code)
    | Block(body: seq<Stmt>)
    | If(cond: Expr, thn: seq<Stmt>, els: Option<Stmt>)
    | Match(scrutinee: Expr, arms: Arms)
    | While(cond: Expr, body: seq<Stmt>)
    | For(init: Option<Expr>, test: Option<Expr>, post: Option<Expr>, body: seq<Stmt>)
    | Return(what: Returned)
    | Break
    | Continue

  /** The arms of a match, in order; the wildcard arm has no pattern. */
  datatype Arms = NoArms | Arm(pattern: Option<Expr>, body: Stmt, rest: Arms)

  /** Deferred code: a single expression, or a braced block. */
  datatype Code = Single(a: Expr) | Braced(stmts: seq<Stmt>)

  // ----- size, the measure of every recursion that follows stored deferred code -----

  function Size(s: Stmt): (n: nat)
    ensures n > 0
    decreases s, 1
  {
    match s
    case Defer(code) => 1 + CodeSize(code)
    case Block(body) => 1 + ListSize(body)
    case If(_, thn, els) => 1 + ListSize(thn) + (if els.Some? then Size(els.value) else 0)
    case Match(_, arms) => 1 + ArmsSize(arms)
    case While(_, body) => 1 + ListSize(body)
    case For(_, _, _, body) => 1 + ListSize(body)
    case _ => 1
  }

  function ListSize(ss: seq<Stmt>): nat
    decreases ss, 0
  {
    if ss == [] then 0 else Size(ss[0]) + ListSize(ss[1..])
  }

  function ArmsSize(arms: Arms): nat
    decreases arms, 0
  {
    if arms.NoArms? then 0 else Size(arms.body) + ArmsSize(arms.rest)
  }

  function CodeSize(c: Code): nat
    decreases c, 0
  {
    match c
    case Single(_) => 1
    case Braced(stmts) => 1 + ListSize(stmts)
  }

  function CodesSize(p: seq<Code>): nat {
    if p == [] then 0 else CodeSize(p[|p| - 1]) + CodesSize(p[..|p| - 1])
  }

  lemma PushSize(p: seq<Code>, c: Code)
    ensures CodesSize(p + [c]) == CodesSize(p) + CodeSize(c)
  {
    assert (p + [c])[..|p|] == p;
  }

  // ----- what the control-flow checker computes -----

  /** Some return, break or continue occurs in the code, at any depth. */
  predicate HasControlFlow(s: Stmt)
    decreases s, 1
  {
    match s
    case Action(_) => false
    case Defer(code) => CodeHasControlFlow(code)
    case Block(body) => ListHasControlFlow(body)
    case If(_, thn, els) => ListHasControlFlow(thn) || (els.Some? && HasControlFlow(els.value))
    case Match(_, arms) => ArmsHaveControlFlow(arms)
    case While(_, body) => ListHasControlFlow(body)
    case For(_, _, _, body) => ListHasControlFlow(body)
    case Return(_) => true
    case Break => true
    case Continue => true
  }

  predicate ListHasControlFlow(ss: seq<Stmt>)
    decreases ss, 0
  {
    ss != [] && (HasControlFlow(ss[0]) || ListHasControlFlow(ss[1..]))
  }

  predicate ArmsHaveControlFlow(arms: Arms)
    decreases arms, 0
  {
    arms.Arm? && (HasControlFlow(arms.body) || ArmsHaveControlFlow(arms.rest))
  }

  predicate CodeHasControlFlow(c: Code)
    decreases c, 0
  {
    c.Braced? && ListHasControlFlow(c.stmts)
  }

  // ----- bodies the lowering is meant for -----

  predicate DirectDefer(ss: seq<Stmt>) {
    exists i :: 0 <= i < |ss| && ss[i].Defer?
  }

  /** What the parser and the checker establish before emission, plus the shapes the emitter relies on: deferred code
      has no control flow and no `defer` directly in its braces, and without braces it is an expression that declares
      nothing; an `else` is a block or another `if`; an arm that is not a block is a single statement; and a match
      has at least one `case`, with its wildcard last. */
  predicate WellFormed(s: Stmt)
    decreases s, 1
  {
    match s
    case Action(_) => true
    case Defer(code) => CodeOk(code)
    case Block(body) => ListOk(body)
    case If(_, thn, els) => ListOk(thn) && (els.Some? ==> (els.value.Block? || els.value.If?) && WellFormed(els.value))
    case Match(_, arms) => ArmsInOrder(arms) && ArmsOk(arms)
    case While(_, body) => ListOk(body)
    case For(_, _, _, body) => ListOk(body)
    case Return(_) => true
    case Break => true
    case Continue => true
  }

  predicate ListOk(ss: seq<Stmt>)
    decreases ss, 0
  {
    ss == [] || (WellFormed(ss[0]) && ListOk(ss[1..]))
  }

  predicate ArmsOk(arms: Arms)
    decreases arms, 0
  {
    arms.Arm? ==> ArmBody(arms.body) && WellFormed(arms.body) && ArmsOk(arms.rest)
  }

  predicate CodeOk(c: Code)
    decreases c, 0
  {
    match c
    case Single(a) => a.declares == []
    case Braced(stmts) => !ListHasControlFlow(stmts) && !DirectDefer(stmts) && ListOk(stmts)
  }

  predicate ArmBody(s: Stmt) {
    s.Block? || s.Action? || s.Return? || s.Break? || s.Continue?
  }

  /** Every arm but the last has a pattern, and the last is the wildcard. */
  predicate WildcardLast(arms: Arms) {
    arms.Arm? && (arms.pattern.None? <==> arms.rest.NoArms?) && (arms.rest.Arm? ==> WildcardLast(arms.rest))
  }

  /** At least one `case`, and the wildcard comes last and only there. */
  predicate ArmsInOrder(arms: Arms) {
    WildcardLast(arms) && arms.rest.Arm?
  }

  predicate CodesOk(p: seq<Code>) {
    forall i :: 0 <= i < |p| ==> CodeOk(p[i])
  }
}
