/** The weaving of deferred code into plain statements, as a function of a statement and of the stack of
    scopes around it, and the proof that it keeps the meaning. */
module DeferWeaving {
  import opened Options
  import opened DeferSyntax
  import opened DeferSource
  import opened DeferTarget

  /** A lexical scope of the emitter with the deferred code met in it so far. */
  datatype Scope = Scope(kind: Kind, defers: seq<Code>)

  function Top(sc: seq<Scope>): Scope requires sc != [] { sc[|sc| - 1] }

  function Outer(sc: seq<Scope>): seq<Scope> requires sc != [] { sc[..|sc| - 1] }

  function Register(sc: seq<Scope>, c: Code): seq<Scope>
    requires sc != []
  {
    Outer(sc) + [Scope(Top(sc).kind, Top(sc).defers + [c])]
  }

  function StackSize(sc: seq<Scope>): nat {
    if sc == [] then 0 else CodesSize(Top(sc).defers) + StackSize(Outer(sc))
  }

  lemma EnterSize(sc: seq<Scope>, s: Scope)
    ensures Top(sc + [s]) == s && Outer(sc + [s]) == sc
    ensures StackSize(sc + [s]) == StackSize(sc) + CodesSize(s.defers)
  {
    assert (sc + [s])[..|sc|] == sc;
  }

  lemma RegisterSize(sc: seq<Scope>, c: Code)
    requires sc != []
    ensures StackSize(Register(sc, c)) == StackSize(sc) + CodeSize(c)
    ensures Top(Register(sc, c)) == Scope(Top(sc).kind, Top(sc).defers + [c]) && Outer(Register(sc, c)) == Outer(sc)
  {
    EnterSize(Outer(sc), Scope(Top(sc).kind, Top(sc).defers + [c]));
    PushSize(Top(sc).defers, c);
  }

  /** What is emitted for a statement below the scopes `sc`. */
  function Weave(s: Stmt, sc: seq<Scope>): seq<Target>
    decreases Size(s) + StackSize(sc), 0, 0
  {
    match s
    case Action(a) => [TAct(a)]
    case Defer(_) => []
    case Block(body) => [TBlock(WeaveScope(body, BlockScope, sc))]
    case If(cond, thn, els) =>
      [TIf(cond, WeaveScope(thn, BlockScope, sc), if els.Some? then Some(WeaveElse(els.value, sc)) else None)]
    case Match(scrutinee, arms) => [TBlock([TMatch(scrutinee, WeaveArms(arms, true, sc))])]
    case While(cond, body) => [TWhile(cond, WeaveScope(body, LoopScope, sc))]
    case For(init, cond, post, body) => [TFor(init, cond, post, WeaveScope(body, LoopScope, sc))]
    case Return(Void) => WeaveAll(sc) + [TReturnVoid]
    case Return(Call(e)) => [TSave([e])] + WeaveAll(sc) + [TReturnSaved]
    case Return(Plain(e)) => WeaveAll(sc) + [TReturn(e)]
    case Return(Tuple(es)) => [TSave(es)] + WeaveAll(sc) + [TReturnSaved]
    case Break => WeaveToLoop(sc) + [TBreak]
    case Continue => WeaveToLoop(sc) + [TContinue]
  }

  /** An `else` is followed by one statement. */
  function WeaveElse(s: Stmt, sc: seq<Scope>): Target
    decreases Size(s) + StackSize(sc), 1, 0
  {
    var ts := Weave(s, sc);
    if |ts| == 1 then ts[0] else TBlock(ts)
  }

  /** The statements of a scope opened below `sc`. */
  function WeaveScope(body: seq<Stmt>, k: Kind, sc: seq<Scope>): seq<Target>
    decreases ListSize(body) + StackSize(sc), 6, 0
  {
    EnterSize(sc, Scope(k, []));
    WeaveList(body, sc + [Scope(k, [])])
  }

  /** The remaining statements of the innermost scope; where control falls through its end, its deferred
      code is written out. */
  function WeaveList(ss: seq<Stmt>, sc: seq<Scope>): seq<Target>
    requires sc != []
    decreases ListSize(ss) + StackSize(sc), 5, 0
  {
    if ss == [] then WeaveCodes(Top(sc).defers)
    else if ss[0].Defer? then
      RegisterSize(sc, ss[0].code);
      assert Size(ss[0]) == 1 + CodeSize(ss[0].code);
      WeaveList(ss[1..], Register(sc, ss[0].code))
    else Weave(ss[0], sc) + WeaveList(ss[1..], sc)
  }

  function WeaveArms(arms: Arms, first: bool, sc: seq<Scope>): Clauses
    decreases ArmsSize(arms) + StackSize(sc), 2, 0
  {
    if arms.NoArms? then NoClauses
    else if arms.pattern.None? then Clause(ElseKw, None, WeaveArm(arms.body, sc), WeaveArms(arms.rest, first, sc))
    else Clause(if first then IfKw else ElseIfKw, arms.pattern, WeaveArm(arms.body, sc), WeaveArms(arms.rest, false, sc))
  }

  /** The braces around an arm are those of its block, or are added around a single statement. */
  function WeaveArm(s: Stmt, sc: seq<Scope>): seq<Target>
    decreases Size(s) + StackSize(sc), 1, 0
  {
    if s.Block? then WeaveScope(s.body, BlockScope, sc) else Weave(s, sc)
  }

  /** The deferred code of all scopes, innermost scope first. */
  function WeaveAll(sc: seq<Scope>): seq<Target>
    decreases StackSize(sc), 3, |sc|
  {
    if sc == [] then [] else WeaveCodes(Top(sc).defers) + WeaveAll(Outer(sc))
  }

  /** The deferred code of the scopes inside the innermost loop scope. */
  function WeaveToLoop(sc: seq<Scope>): seq<Target>
    decreases StackSize(sc), 3, |sc|
  {
    if sc == [] || Top(sc).kind.LoopScope? then [] else WeaveCodes(Top(sc).defers) + WeaveToLoop(Outer(sc))
  }

  /** Deferred code of one scope, last registered first. */
  function WeaveCodes(p: seq<Code>): seq<Target>
    decreases CodesSize(p), 2, 0
  {
    if p == [] then [] else WeaveCode(p[|p| - 1]) + WeaveCodes(p[..|p| - 1])
  }

  function WeaveCode(c: Code): seq<Target>
    decreases CodeSize(c), 1, 0
  {
    match c
    case Single(a) => [TAct(a)]
    case Braced(stmts) => [TBlock(WeavePlain(stmts))]
  }

  /** Statements of a deferred block, which gets no scope of its own. */
  function WeavePlain(ss: seq<Stmt>): seq<Target>
    decreases ListSize(ss), 5, 0
  {
    if ss == [] then [] else Weave(ss[0], []) + WeavePlain(ss[1..])
  }

  function WeaveFunction(body: seq<Stmt>): seq<Target> {
    WeaveScope(body, FunctionScope, [])
  }

  /** The lines that a variadic function writes around its body: the list of arguments, its start and its end. */
  datatype VaLines = VaLines(list: Expr, start: Expr, end: Expr)

  function WeaveVariadic(body: seq<Stmt>, va: Option<VaLines>): seq<Target> {
    if va.None? then WeaveFunction(body)
    else [TAct(va.value.list), TAct(va.value.start)] + WeaveFunction(body) + [TAct(va.value.end)]
  }
}
