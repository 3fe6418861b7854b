/** Laws of the language of the emitted code: how its statements can be written with each other. */
module DeferLaws {
  import opened Options
  import opened DeferSyntax
  import opened DeferSource
  import opened DeferTarget

  /** Several values are computed from left to right, each once. */
  lemma {:induction false} ValuesInOrder<S, V>(env: Env<S, V>, es: seq<Expr>, e: Expr, st: S)
    ensures var (vs, st1) := EvalAll(env, es, st);
            var (v, st2) := env.eval(e, st1);
            |vs| == |es| && EvalAll(env, es + [e], st) == (vs + [v], st2)
  {
    if es == [] {
      var (v, st1) := env.eval(e, st);
      assert [e][1..] == [] && es + [e] == [e];
      assert EvalAll(env, [e], st) == ([v] + [], st1);
      assert [v] + [] == [] + [v];
    } else {
      var rest := es[1..] + [e];
      assert (es + [e])[1..] == rest && (es + [e])[0] == es[0];
      var (v, st1) := env.eval(es[0], st);
      ValuesInOrder(env, es[1..], e, st1);
      var (vs, st2) := EvalAll(env, es[1..], st1);
      assert EvalAll(env, es, st) == ([v] + vs, st2);
      var (w, st3) := env.eval(e, st2);
      assert EvalAll(env, rest, st1) == (vs + [w], st3);
      assert [v] + (vs + [w]) == [v] + vs + [w];
    }
  }

  /** However it is entered, the code does not end with `continue`. */
  ghost predicate NeverContinues<S(!new), V>(env: Env<S, V>, n: nat, body: seq<Target>, saved: seq<V>) {
    forall st :: ExecTList(env, n, body, saved, st).Done? ==> !ExecTList(env, n, body, saved, st).out.Continued?
  }

  lemma {:induction false} StepAtTheEnd<S(!new), V>(env: Env<S, V>, n: nat, left: nat, test: Expr, step: Expr,
                                                    body: seq<Target>, saved: seq<V>, st: S)
    requires NoSave(body) && NeverContinues(env, n, body, saved)
    ensures LoopT(env, n, left, Some(test), Some(step), body, saved, st) ==
            LoopT(env, n, left, Some(test), None, body + [TAct(step)], saved, st)
    decreases left
  {
    if left > 0 {
      var (b, st1) := env.test(test, st);
      if b {
        ExecAppend(env, n, body, [TAct(step)], saved, st1);
        var r := ExecTList(env, n, body, saved, st1);
        if r.Done? && r.out.Normal? {
          var next := env.act(step, r.st);
          assert ExecTList(env, n, [TAct(step)], saved, r.st) == Done(Normal, next);
          StepAtTheEnd(env, n, left - 1, test, step, body, saved, next);
        }
      }
    }
  }

  /** `for (init; test; step) body` is `init; while (test) { body; step }`, unless the body continues. */
  lemma ForIsWhile<S(!new), V>(env: Env<S, V>, n: nat, init: Expr, test: Expr, step: Expr, body: seq<Target>,
                               saved: seq<V>, st: S)
    requires NoSave(body) && NeverContinues(env, n, body, saved)
    ensures ExecT(env, n, TFor(Some(init), Some(test), Some(step), body), saved, st) ==
            ExecTList(env, n, [TAct(init), TWhile(test, body + [TAct(step)])], saved, st)
  {
    var loop, st1 := TWhile(test, body + [TAct(step)]), env.act(init, st);
    StepAtTheEnd(env, n, n, test, step, body, saved, st1);
    var all := [TAct(init), loop];
    assert all[1..] == [loop] && [loop][1..] == [];
    assert ExecTList(env, n, all, saved, st) == ExecTList(env, n, [loop], saved, st1);
    var r := ExecT(env, n, loop, saved, st1);
    assert ExecTList(env, n, [loop], saved, st1) == if r.Stuck? || !r.out.Normal? then r else ExecTList(env, n, [], saved, r.st);
  }

  /** A missing initialiser and a missing step do nothing. */
  lemma ForWithoutStep<S, V>(env: Env<S, V>, n: nat, test: Expr, body: seq<Target>, saved: seq<V>, st: S)
    ensures ExecT(env, n, TFor(None, Some(test), None, body), saved, st) == ExecT(env, n, TWhile(test, body), saved, st)
  {}

  /** Nothing ends `for (;;) { a; }`. */
  lemma {:induction false} ForeverIsStuck<S, V>(env: Env<S, V>, n: nat, left: nat, a: Expr, st: S)
    ensures LoopT(env, n, left, None, None, [TAct(a)], [], st).Stuck?
    decreases left
  {
    if left > 0 {
      assert ExecTList(env, n, [TAct(a)], [], st) == Done(Normal, env.act(a, st));
      ForeverIsStuck(env, n, left - 1, a, env.act(a, st));
    }
  }

  /** `while (c) { body; break; }` is `if (c) { body }`. */
  lemma WhileOnceIsIf<S, V>(env: Env<S, V>, n: nat, c: Expr, body: seq<Target>, saved: seq<V>, st: S)
    requires n > 0 && NoSave(body)
    requires var r := ExecTList(env, n, body, saved, env.test(c, st).1); r.Done? ==> r.out.Normal? || r.out.Returns?
    ensures ExecT(env, n, TWhile(c, body + [TBreak]), saved, st) == ExecT(env, n, TIf(c, body, None), saved, st)
  {
    var st1 := env.test(c, st).1;
    ExecAppend(env, n, body, [TBreak], saved, st1);
    var r := ExecTList(env, n, body, saved, st1);
    if r.Done? && r.out.Normal? {
      assert ExecTList(env, n, [TBreak], saved, r.st) == Done(Broke, r.st);
    }
  }

  /** A match with one case and a wildcard takes the case exactly when the pattern matches the value. */
  lemma MatchOfTwo<S, V>(env: Env<S, V>, n: nat, e: Expr, p: Expr, a: seq<Target>, b: seq<Target>, saved: seq<V>, st: S)
    ensures var (v, st1) := env.eval(e, st);
            var (hit, st2) := env.matches(p, v, st1);
            ExecT(env, n, TMatch(e, Clause(IfKw, Some(p), a, Clause(ElseKw, None, b, NoClauses))), saved, st) ==
            ExecTList(env, n, if hit then a else b, saved, st2)
  {
    var (v, st1) := env.eval(e, st);
    var (hit, st2) := env.matches(p, v, st1);
    var last := Clause(ElseKw, None, b, NoClauses);
    assert ExecClauses(env, n, last, v, saved, st2) == ExecTList(env, n, b, saved, st2);
    assert ExecClauses(env, n, Clause(IfKw, Some(p), a, last), v, saved, st1) ==
           ExecTList(env, n, if hit then a else b, saved, st2);
  }
}
