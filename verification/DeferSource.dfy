/** The meaning of truk bodies: every scope keeps the deferred code registered in it so far and runs it,
    last in first out, when control leaves the scope. */
module DeferSource {
  import opened Options
  import opened DeferSyntax

  /** What the abstract expressions do to a state, and the values they give. */
  datatype Env<!S, !V> = Env(
    act: (Expr, S) -> S,
    test: (Expr, S) -> (bool, S),
    eval: (Expr, S) -> (V, S),
    matches: (Expr, V, S) -> (bool, S))

  datatype Kind = FunctionScope | BlockScope | LoopScope

  /** How control leaves a statement. `Late(e)` is a return whose value is still to be computed. */
  datatype Outcome<V> = Normal | Broke | Continued | Returns(vals: seq<V>) | Late(e: Expr)

  /** `Stuck` means that some loop needed more iterations than the bound allows. */
  datatype Run<S, V> = Stuck | Done(out: Outcome<V>, st: S)

  /** Two readings of the language. The documented one discards the loop body's own pending code on
      break and continue, and computes a returned expression that is not a call after the deferred code.
      The strict one does neither. */
  datatype Policy = Policy(loopExitsRunDefers: bool, returnsFirst: bool)

  const Documented := Policy(false, false)
  const Strict := Policy(true, true)

  function EvalAll<S, V>(env: Env<S, V>, es: seq<Expr>, st: S): (seq<V>, S) {
    if es == [] then ([], st)
    else
      var (v, st1) := env.eval(es[0], st);
      var (vs, st2) := EvalAll(env, es[1..], st1);
      ([v] + vs, st2)
  }

  function ActOpt<S, V>(env: Env<S, V>, a: Option<Expr>, st: S): S {
    if a.Some? then env.act(a.value, st) else st
  }

  function TestOpt<S, V>(env: Env<S, V>, t: Option<Expr>, st: S): (bool, S) {
    if t.Some? then env.test(t.value, st) else (true, st)
  }

  /** A statement other than `defer`, which is an affair of the list around it. `n` bounds the iterations
      of each loop. */
  function Exec<S, V>(env: Env<S, V>, pol: Policy, n: nat, s: Stmt, st: S): Run<S, V>
    decreases Size(s), 0, 0
  {
    match s
    case Action(a) => Done(Normal, env.act(a, st))
    case Defer(_) => Done(Normal, st)
    case Block(body) => ExecList(env, pol, n, body, BlockScope, [], st)
    case If(cond, thn, els) =>
      var (b, st1) := env.test(cond, st);
      if b then ExecList(env, pol, n, thn, BlockScope, [], st1)
      else if els.Some? then Exec(env, pol, n, els.value, st1)
      else Done(Normal, st1)
    case Match(scrutinee, arms) =>
      var (v, st1) := env.eval(scrutinee, st);
      ExecArms(env, pol, n, arms, v, st1)
    case While(cond, body) => Loop(env, pol, n, n, Some(cond), None, body, st)
    case For(init, cond, post, body) => Loop(env, pol, n, n, cond, post, body, ActOpt(env, init, st))
    case Return(what) =>
      (match what
       case Void => Done(Returns([]), st)
       case Call(e) => var (v, st1) := env.eval(e, st); Done(Returns([v]), st1)
       case Plain(e) =>
         if pol.returnsFirst then var (v, st1) := env.eval(e, st); Done(Returns([v]), st1)
         else Done(Late(e), st)
       case Tuple(es) => var (vs, st1) := EvalAll(env, es, st); Done(Returns(vs), st1))
    case Break => Done(Broke, st)
    case Continue => Done(Continued, st)
  }

  /** The statements of a scope of kind `k` that are still to run, with `pending` registered so far. */
  function ExecList<S, V>(env: Env<S, V>, pol: Policy, n: nat, ss: seq<Stmt>, k: Kind, pending: seq<Code>, st: S)
    : Run<S, V>
    decreases ListSize(ss) + CodesSize(pending), 3, 0
  {
    if ss == [] then Leave(env, pol, n, k, pending, Done(Normal, st))
    else if ss[0].Defer? then
      PushSize(pending, ss[0].code);
      assert Size(ss[0]) == 1 + CodeSize(ss[0].code);
      ExecList(env, pol, n, ss[1..], k, pending + [ss[0].code], st)
    else
      var r := Exec(env, pol, n, ss[0], st);
      if r.Done? && r.out.Normal? then ExecList(env, pol, n, ss[1..], k, pending, r.st)
      else Leave(env, pol, n, k, pending, r)
  }

  function ExecArms<S, V>(env: Env<S, V>, pol: Policy, n: nat, arms: Arms, v: V, st: S): Run<S, V>
    decreases ArmsSize(arms), 1, 0
  {
    if arms.NoArms? then Done(Normal, st)
    else if arms.pattern.None? then Exec(env, pol, n, arms.body, st)
    else
      var (b, st1) := env.matches(arms.pattern.value, v, st);
      if b then Exec(env, pol, n, arms.body, st1) else ExecArms(env, pol, n, arms.rest, v, st1)
  }

  /** At most `left` further iterations. */
  function Loop<S, V>(env: Env<S, V>, pol: Policy, n: nat, left: nat, cond: Option<Expr>, post: Option<Expr>,
                      body: seq<Stmt>, st: S): Run<S, V>
    decreases ListSize(body), 4, left
  {
    if left == 0 then Stuck
    else
      var (b, st1) := TestOpt(env, cond, st);
      if !b then Done(Normal, st1)
      else
        var r := ExecList(env, pol, n, body, LoopScope, [], st1);
        if r.Stuck? || r.out.Returns? || r.out.Late? then r
        else if r.out.Broke? then Done(Normal, r.st)
        else Loop(env, pol, n, left - 1, cond, post, body, ActOpt(env, post, r.st))
  }

  /** Control leaves a scope: its pending code runs, except where a loop body is left by break or continue
      under the documented policy. */
  function Leave<S, V>(env: Env<S, V>, pol: Policy, n: nat, k: Kind, pending: seq<Code>, r: Run<S, V>): Run<S, V>
    decreases CodesSize(pending), 2, 0
  {
    if r.Stuck? then r
    else if k.LoopScope? && (r.out.Broke? || r.out.Continued?) && !pol.loopExitsRunDefers then r
    else
      var q := RunPending(env, pol, n, pending, r.st);
      if q.Stuck? then Stuck else Done(r.out, q.st)
  }

  /** Runs the deferred code, last registered first. */
  function RunPending<S, V>(env: Env<S, V>, pol: Policy, n: nat, pending: seq<Code>, st: S)
    : (r: Run<S, V>)
    ensures r.Done? ==> r.out.Normal?
    decreases CodesSize(pending), 1, 0
  {
    if pending == [] then Done(Normal, st)
    else
      var c := RunCode(env, pol, n, pending[|pending| - 1], st);
      if c.Stuck? then Stuck else RunPending(env, pol, n, pending[..|pending| - 1], c.st)
  }

  function RunCode<S, V>(env: Env<S, V>, pol: Policy, n: nat, c: Code, st: S): Run<S, V>
    decreases CodeSize(c), 0, 0
  {
    match c
    case Single(a) => Done(Normal, env.act(a, st))
    case Braced(stmts) => ExecList(env, pol, n, stmts, BlockScope, [], st)
  }

  /** A function body from call to return; a late return value is computed once everything has run. */
  function ExecFunction<S, V>(env: Env<S, V>, pol: Policy, n: nat, body: seq<Stmt>, st: S): Run<S, V> {
    Settle(env, ExecList(env, pol, n, body, FunctionScope, [], st))
  }

  function Settle<S, V>(env: Env<S, V>, r: Run<S, V>): Run<S, V> {
    if r.Done? && r.out.Late? then var (v, st) := env.eval(r.out.e, r.st); Done(Returns([v]), st)
    else r
  }
}
