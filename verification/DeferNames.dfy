/** What the names of a body denote: in the source, where deferred code is resolved at its `defer`, and in the
    emitted C, where it is resolved wherever it has been written again. */
module DeferNames {
  import opened Options
  import opened DeferSyntax
  import opened DeferSource
  import opened DeferTarget
  import opened DeferWeaving

  /** A declaration of a name by the expression `id`. */
  datatype Decl = Decl(name: string, id: nat)

  /** The declarations that can be seen, outermost and earliest first. */
  type Seen = seq<Decl>

  /** The declaration that a name denotes: the last one seen. */
  function Lookup(env: Seen, x: string): Option<nat> {
    if env == [] then None
    else if env[|env| - 1].name == x then Some(env[|env| - 1].id)
    else Lookup(env[..|env| - 1], x)
  }

  function Decls(e: Expr): (r: Seen)
    ensures |r| == |e.declares| && forall i :: 0 <= i < |r| ==> r[i] == Decl(e.declares[i], e.id)
  {
    seq(|e.declares|, i requires 0 <= i < |e.declares| => Decl(e.declares[i], e.id))
  }

  /** The expression with its names resolved. */
  function Bind(e: Expr, env: Seen): Expr {
    e.(binds := map x | x in e.uses && Lookup(env, x).Some? :: Lookup(env, x).value)
  }

  // ----- names in the source -----

  /** What can be seen behind a statement of the same list. */
  function After(s: Stmt, env: Seen): Seen {
    if s.Action? then env + Decls(s.a) else env
  }

  function AfterInit(init: Option<Expr>, env: Seen): Seen {
    if init.Some? then env + Decls(init.value) else env
  }

  function BindOpt(e: Option<Expr>, env: Seen): Option<Expr> {
    if e.Some? then Some(Bind(e.value, env)) else None
  }

  function BindAll(es: seq<Expr>, env: Seen): (r: seq<Expr>)
    ensures |r| == |es| && forall i :: 0 <= i < |es| ==> r[i] == Bind(es[i], env)
  {
    seq(|es|, i requires 0 <= i < |es| => Bind(es[i], env))
  }

  function BindReturned(what: Returned, env: Seen): Returned {
    match what
    case Void => Void
    case Call(e) => Call(Bind(e, env))
    case Plain(e) => Plain(Bind(e, env))
    case Tuple(es) => Tuple(BindAll(es, env))
  }

  /** The type checker looks names up in the order of the text; the initialiser of a declaration does not see
      it, and deferred code is visited where it is deferred. */
  function Resolve(s: Stmt, env: Seen): Stmt
    decreases s, 1
  {
    match s
    case Action(a) => Action(Bind(a, env))
    case Defer(code) => Defer(ResolveCode(code, env))
    case Block(body) => Block(ResolveList(body, env))
    case If(cond, thn, els) =>
      If(Bind(cond, env), ResolveList(thn, env), if els.Some? then Some(Resolve(els.value, env)) else None)
    case Match(scrutinee, arms) => Match(Bind(scrutinee, env), ResolveArms(arms, env))
    case While(cond, body) => While(Bind(cond, env), ResolveList(body, env))
    case For(init, test, post, body) =>
      var inner := AfterInit(init, env);
      For(BindOpt(init, env), BindOpt(test, inner), BindOpt(post, inner), ResolveList(body, inner))
    case Return(what) => Return(BindReturned(what, env))
    case Break => Break
    case Continue => Continue
  }

  function ResolveList(ss: seq<Stmt>, env: Seen): seq<Stmt>
    decreases ss, 0
  {
    if ss == [] then [] else [Resolve(ss[0], env)] + ResolveList(ss[1..], After(ss[0], env))
  }

  function ResolveArms(arms: Arms, env: Seen): Arms
    decreases arms, 0
  {
    if arms.NoArms? then NoArms
    else Arm(BindOpt(arms.pattern, env), Resolve(arms.body, env), ResolveArms(arms.rest, env))
  }

  function ResolveCode(c: Code, env: Seen): Code
    decreases c, 0
  {
    match c
    case Single(a) => Single(Bind(a, env))
    case Braced(stmts) => Braced(ResolveList(stmts, env))
  }

  // ----- names in C -----

  /** In C a declaration is seen from its declarator on, so in its own initialiser too. */
  function BindC(e: Expr, env: Seen): Expr {
    Bind(e, if e.own then env + Decls(e) else env)
  }

  function AfterC(t: Target, env: Seen): Seen {
    if t.TAct? then env + Decls(t.a) else env
  }

  function BindOptC(e: Option<Expr>, env: Seen): Option<Expr> {
    if e.Some? then Some(BindC(e.value, env)) else None
  }

  function ResolveC(t: Target, env: Seen): Target
    decreases t, 1
  {
    match t
    case TAct(a) => TAct(BindC(a, env))
    case TBlock(body) => TBlock(ResolveCList(body, env))
    case TIf(cond, thn, els) =>
      TIf(Bind(cond, env), ResolveCList(thn, env), if els.Some? then Some(ResolveC(els.value, env)) else None)
    case TMatch(scrutinee, clauses) => TMatch(Bind(scrutinee, env), ResolveClauses(clauses, env))
    case TWhile(cond, body) => TWhile(Bind(cond, env), ResolveCList(body, env))
    case TFor(init, test, post, body) =>
      var inner := AfterInit(init, env);
      TFor(BindOptC(init, env), BindOpt(test, inner), BindOpt(post, inner), ResolveCList(body, inner))
    case TSave(es) => TSave(BindAll(es, env))
    case TReturnSaved => TReturnSaved
    case TReturnVoid => TReturnVoid
    case TReturn(e) => TReturn(Bind(e, env))
    case TBreak => TBreak
    case TContinue => TContinue
  }

  function ResolveCList(ts: seq<Target>, env: Seen): (r: seq<Target>)
    ensures |r| == |ts|
    decreases ts, 0
  {
    if ts == [] then [] else [ResolveC(ts[0], env)] + ResolveCList(ts[1..], AfterC(ts[0], env))
  }

  function ResolveClauses(cs: Clauses, env: Seen): Clauses
    decreases cs, 0
  {
    if cs.NoClauses? then NoClauses
    else Clause(cs.kw, BindOpt(cs.pattern, env), ResolveCList(cs.body, env), ResolveClauses(cs.rest, env))
  }

  // ----- scopes that remember what could be seen at each defer -----

  datatype Pending = Pending(code: Code, at: Seen)

  datatype NamedScope = NamedScope(kind: Kind, defers: seq<Pending>)

  function Last(sc: seq<NamedScope>): NamedScope
    requires sc != []
  {
    sc[|sc| - 1]
  }

  function Enclosing(sc: seq<NamedScope>): seq<NamedScope>
    requires sc != []
  {
    sc[..|sc| - 1]
  }

  function Remember(sc: seq<NamedScope>, c: Code, env: Seen): seq<NamedScope>
    requires sc != []
  {
    Enclosing(sc) + [NamedScope(Last(sc).kind, Last(sc).defers + [Pending(c, env)])]
  }

  /** The deferred code as it is kept by the emitter. */
  function Codes(p: seq<Pending>): (r: seq<Code>)
    ensures |r| == |p| && forall i :: 0 <= i < |p| ==> r[i] == p[i].code
  {
    seq(|p|, i requires 0 <= i < |p| => p[i].code)
  }

  /** The deferred code as it is meant. */
  function Meant(p: seq<Pending>): (r: seq<Code>)
    ensures |r| == |p| && forall i :: 0 <= i < |p| ==> r[i] == ResolveCode(p[i].code, p[i].at)
  {
    seq(|p|, i requires 0 <= i < |p| => ResolveCode(p[i].code, p[i].at))
  }

  function Kept(sc: seq<NamedScope>): (r: seq<Scope>)
    ensures |r| == |sc| && forall i :: 0 <= i < |sc| ==> r[i] == Scope(sc[i].kind, Codes(sc[i].defers))
  {
    seq(|sc|, i requires 0 <= i < |sc| => Scope(sc[i].kind, Codes(sc[i].defers)))
  }

  function MeantScopes(sc: seq<NamedScope>): (r: seq<Scope>)
    ensures |r| == |sc| && forall i :: 0 <= i < |sc| ==> r[i] == Scope(sc[i].kind, Meant(sc[i].defers))
  {
    seq(|sc|, i requires 0 <= i < |sc| => Scope(sc[i].kind, Meant(sc[i].defers)))
  }

  predicate PendingOk(p: seq<Pending>) {
    forall i :: 0 <= i < |p| ==> CodeOk(p[i].code)
  }

  predicate ScopesOk(sc: seq<NamedScope>) {
    forall i :: 0 <= i < |sc| ==> PendingOk(sc[i].defers)
  }

  function PendingSize(p: seq<Pending>): nat {
    if p == [] then 0 else CodeSize(p[|p| - 1].code) + PendingSize(p[..|p| - 1])
  }

  function ScopesSize(sc: seq<NamedScope>): nat {
    if sc == [] then 0 else PendingSize(Last(sc).defers) + ScopesSize(Enclosing(sc))
  }

  lemma LastSize(sc: seq<NamedScope>)
    requires sc != []
    ensures PendingSize(Last(sc).defers) <= ScopesSize(sc)
  {}

  lemma EnterNamed(sc: seq<NamedScope>, s: NamedScope)
    ensures Last(sc + [s]) == s && Enclosing(sc + [s]) == sc
    ensures ScopesSize(sc + [s]) == ScopesSize(sc) + PendingSize(s.defers)
  {
    assert (sc + [s])[..|sc|] == sc;
  }

  lemma RememberSize(sc: seq<NamedScope>, c: Code, env: Seen)
    requires sc != []
    ensures Remember(sc, c, env) != []
    ensures ScopesSize(Remember(sc, c, env)) == ScopesSize(sc) + CodeSize(c)
    ensures Last(Remember(sc, c, env)) == NamedScope(Last(sc).kind, Last(sc).defers + [Pending(c, env)])
    ensures Enclosing(Remember(sc, c, env)) == Enclosing(sc)
  {
    var p := Last(sc).defers;
    EnterNamed(Enclosing(sc), NamedScope(Last(sc).kind, p + [Pending(c, env)]));
    assert (p + [Pending(c, env)])[..|p|] == p;
  }

  // ----- where source and text agree on names -----

  /** Everything written for the statement denotes in C, where `tgt` can be seen, what it denotes in the source,
      where `src` can be seen; a copy of deferred code denotes what it did at its `defer`. */
  predicate Fits(s: Stmt, sc: seq<NamedScope>, src: Seen, tgt: Seen)
    decreases Size(s) + ScopesSize(sc), 0, 0
  {
    match s
    case Action(a) => Bind(a, src) == BindC(a, tgt)
    case Defer(_) => true
    case Block(body) => FitsScope(body, BlockScope, sc, src, tgt)
    case If(cond, thn, els) =>
      && Bind(cond, src) == Bind(cond, tgt) && FitsScope(thn, BlockScope, sc, src, tgt)
      && (els.Some? ==> Fits(els.value, sc, src, tgt))
    case Match(scrutinee, arms) => Bind(scrutinee, src) == Bind(scrutinee, tgt) && FitsArms(arms, sc, src, tgt)
    case While(cond, body) => Bind(cond, src) == Bind(cond, tgt) && FitsScope(body, LoopScope, sc, src, tgt)
    case For(init, test, post, body) =>
      var src', tgt' := AfterInit(init, src), AfterInit(init, tgt);
      && BindOpt(init, src) == BindOptC(init, tgt)
      && BindOpt(test, src') == BindOpt(test, tgt') && BindOpt(post, src') == BindOpt(post, tgt')
      && FitsScope(body, LoopScope, sc, src', tgt')
    case Return(what) => BindReturned(what, src) == BindReturned(what, tgt) && FitsAll(sc, tgt)
    case Break => FitsToLoop(sc, tgt)
    case Continue => FitsToLoop(sc, tgt)
  }

  predicate FitsScope(body: seq<Stmt>, k: Kind, sc: seq<NamedScope>, src: Seen, tgt: Seen)
    decreases ListSize(body) + ScopesSize(sc), 6, 0
  {
    EnterNamed(sc, NamedScope(k, []));
    FitsList(body, sc + [NamedScope(k, [])], src, tgt)
  }

  predicate FitsList(ss: seq<Stmt>, sc: seq<NamedScope>, src: Seen, tgt: Seen)
    requires sc != []
    decreases ListSize(ss) + ScopesSize(sc), 5, 0
  {
    if ss == [] then FitsCodes(Last(sc).defers, tgt)
    else if ss[0].Defer? then
      RememberSize(sc, ss[0].code, src);
      assert Size(ss[0]) == 1 + CodeSize(ss[0].code);
      FitsList(ss[1..], Remember(sc, ss[0].code, src), src, tgt)
    else Fits(ss[0], sc, src, tgt) && FitsList(ss[1..], sc, After(ss[0], src), After(ss[0], tgt))
  }

  predicate FitsArms(arms: Arms, sc: seq<NamedScope>, src: Seen, tgt: Seen)
    decreases ArmsSize(arms) + ScopesSize(sc), 2, 0
  {
    arms.Arm? ==>
      && BindOpt(arms.pattern, src) == BindOpt(arms.pattern, tgt)
      && Fits(arms.body, sc, src, tgt) && FitsArms(arms.rest, sc, src, tgt)
  }

  predicate FitsAll(sc: seq<NamedScope>, tgt: Seen)
    decreases ScopesSize(sc), 3, |sc|
  {
    sc == [] || (FitsCodes(Last(sc).defers, tgt) && FitsAll(Enclosing(sc), tgt))
  }

  predicate FitsToLoop(sc: seq<NamedScope>, tgt: Seen)
    decreases ScopesSize(sc), 3, |sc|
  {
    sc == [] || Last(sc).kind.LoopScope? || (FitsCodes(Last(sc).defers, tgt) && FitsToLoop(Enclosing(sc), tgt))
  }

  predicate FitsCodes(p: seq<Pending>, tgt: Seen)
    decreases PendingSize(p), 2, 0
  {
    p == [] || (FitsCode(p[|p| - 1].code, p[|p| - 1].at, tgt) && FitsCodes(p[..|p| - 1], tgt))
  }

  predicate FitsCode(c: Code, at: Seen, tgt: Seen)
    decreases CodeSize(c), 1, 0
  {
    match c
    case Single(a) => Bind(a, at) == BindC(a, tgt)
    case Braced(stmts) => FitsPlain(stmts, at, tgt)
  }

  predicate FitsPlain(ss: seq<Stmt>, src: Seen, tgt: Seen)
    decreases ListSize(ss), 5, 0
  {
    ss == [] || (Fits(ss[0], [], src, tgt) && FitsPlain(ss[1..], After(ss[0], src), After(ss[0], tgt)))
  }
}
