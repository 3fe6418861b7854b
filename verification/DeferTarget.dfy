/** The emitted C, without `defer`: its statements, its meaning, and the text in which it is written. */
module DeferTarget {
  import opened Options
  import opened DeferSyntax
  import opened DeferSource

  datatype Target =
    | TAct(a: Expr)
    | TBlock(body: seq<Target>)
    | TIf(cond: Expr, thn: seq<Target>, els: Option<Target>)
    | TMatch(scrutinee: Expr, clauses: Clauses)
    | TWhile(cond: Expr, body: seq<Target>)
    | TFor(init: Option<Expr>, test: Option<Expr>, post: Option<Expr>, body: seq<Target>)
    | TSave(es: seq<Expr>)      // declares a temporary holding the values
    | TReturnSaved             // returns that temporary
    | TReturnVoid
    | TReturn(e: Expr)
    | TBreak
    | TContinue

  datatype Keyword = IfKw | ElseIfKw | ElseKw

  /** The clauses written for the arms of a match, each with its keyword. */
  datatype Clauses = NoClauses | Clause(kw: Keyword, pattern: Option<Expr>, body: seq<Target>, rest: Clauses)

  /** `saved` holds the temporary declared last in the enclosing blocks. */
  function ExecT<S, V>(env: Env<S, V>, n: nat, t: Target, saved: seq<V>, st: S): Run<S, V>
    decreases t, 1, 0
  {
    match t
    case TAct(a) => Done(Normal, env.act(a, st))
    case TBlock(body) => ExecTList(env, n, body, saved, st)
    case TIf(cond, thn, els) =>
      var (b, st1) := env.test(cond, st);
      if b then ExecTList(env, n, thn, saved, st1)
      else if els.Some? then ExecT(env, n, els.value, saved, st1)
      else Done(Normal, st1)
    case TMatch(scrutinee, clauses) =>
      var (v, st1) := env.eval(scrutinee, st);
      ExecClauses(env, n, clauses, v, saved, st1)
    case TWhile(cond, body) => LoopT(env, n, n, Some(cond), None, body, saved, st)
    case TFor(init, cond, post, body) => LoopT(env, n, n, cond, post, body, saved, ActOpt(env, init, st))
    case TSave(es) => Done(Normal, EvalAll(env, es, st).1)
    case TReturnSaved => Done(Returns(saved), st)
    case TReturnVoid => Done(Returns([]), st)
    case TReturn(e) => var (v, st1) := env.eval(e, st); Done(Returns([v]), st1)
    case TBreak => Done(Broke, st)
    case TContinue => Done(Continued, st)
  }

  /** A temporary is visible in the rest of its block. */
  function ExecTList<S, V>(env: Env<S, V>, n: nat, ts: seq<Target>, saved: seq<V>, st: S): Run<S, V>
    decreases ts, 0, 0
  {
    if ts == [] then Done(Normal, st)
    else
      var r := ExecT(env, n, ts[0], saved, st);
      if r.Stuck? || !r.out.Normal? then r
      else ExecTList(env, n, ts[1..], if ts[0].TSave? then EvalAll(env, ts[0].es, st).0 else saved, r.st)
  }

  function ExecClauses<S, V>(env: Env<S, V>, n: nat, cs: Clauses, v: V, saved: seq<V>, st: S): Run<S, V>
    decreases cs, 0, 0
  {
    if cs.NoClauses? then Done(Normal, st)
    else if cs.pattern.None? then ExecTList(env, n, cs.body, saved, st)
    else
      var (b, st1) := env.matches(cs.pattern.value, v, st);
      if b then ExecTList(env, n, cs.body, saved, st1) else ExecClauses(env, n, cs.rest, v, saved, st1)
  }

  function LoopT<S, V>(env: Env<S, V>, n: nat, left: nat, cond: Option<Expr>, post: Option<Expr>, body: seq<Target>,
                       saved: seq<V>, st: S): Run<S, V>
    decreases body, 1, left
  {
    if left == 0 then Stuck
    else
      var (b, st1) := TestOpt(env, cond, st);
      if !b then Done(Normal, st1)
      else
        var r := ExecTList(env, n, body, saved, st1);
        if r.Stuck? || r.out.Returns? || r.out.Late? then r
        else if r.out.Broke? then Done(Normal, r.st)
        else LoopT(env, n, left - 1, cond, post, body, saved, ActOpt(env, post, r.st))
  }

  function ExecTFunction<S, V>(env: Env<S, V>, n: nat, body: seq<Target>, st: S): Run<S, V> {
    ExecTList(env, n, body, [], st)
  }

  // ----- C accepts a chain of clauses only in the order if, else if ..., else -----

  predicate Grammatical(cs: Clauses) {
    cs.Clause? && cs.kw.IfKw? && Continuation(cs.rest)
  }

  predicate Continuation(cs: Clauses) {
    || cs.NoClauses?
    || (cs.kw.ElseIfKw? && Continuation(cs.rest))
    || (cs.kw.ElseKw? && cs.rest.NoClauses?)
  }

  /** Every match in the program is such a chain. */
  predicate InGrammar(t: Target)
    decreases t, 1
  {
    match t
    case TBlock(body) => ListInGrammar(body)
    case TIf(_, thn, els) => ListInGrammar(thn) && (els.Some? ==> InGrammar(els.value))
    case TMatch(_, clauses) => Grammatical(clauses) && ClausesInGrammar(clauses)
    case TWhile(_, body) => ListInGrammar(body)
    case TFor(_, _, _, body) => ListInGrammar(body)
    case _ => true
  }

  predicate ListInGrammar(ts: seq<Target>)
    decreases ts, 0
  {
    ts == [] || (InGrammar(ts[0]) && ListInGrammar(ts[1..]))
  }

  predicate ClausesInGrammar(cs: Clauses)
    decreases cs, 0
  {
    cs.Clause? ==> ListInGrammar(cs.body) && ClausesInGrammar(cs.rest)
  }

  predicate NoSave(ts: seq<Target>) {
    forall i :: 0 <= i < |ts| ==> !ts[i].TSave?
  }

  /** Running one list after the other. */
  lemma {:induction false} ExecAppend<S, V>(env: Env<S, V>, n: nat, a: seq<Target>, b: seq<Target>, saved: seq<V>, st: S)
    ensures var r := ExecTList(env, n, a, saved, st);
            && (r.Stuck? || !r.out.Normal? ==> ExecTList(env, n, a + b, saved, st) == r)
            && (r.Done? && r.out.Normal? && NoSave(a) ==>
                  ExecTList(env, n, a + b, saved, st) == ExecTList(env, n, b, saved, r.st))
  {
    if a == [] {
      assert a + b == b;
    } else {
      assert (a + b)[1..] == a[1..] + b;
      var r := ExecT(env, n, a[0], saved, st);
      if r.Done? && r.out.Normal? {
        ExecAppend(env, n, a[1..], b, if a[0].TSave? then EvalAll(env, a[0].es, st).0 else saved, r.st);
      }
    }
  }
}
