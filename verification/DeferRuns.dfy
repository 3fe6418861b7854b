/** Consequences of the weaving theorem that do not mention a loop bound, and the properties of the emitted
    program that belong to C rather than to truk. */
module DeferRuns {
  import opened Options
  import opened Sequences
  import opened DeferSyntax
  import opened DeferSource
  import opened DeferTarget
  import opened DeferWeaving
  import opened DeferProof

  // ----- a larger bound changes nothing once a run has ended -----

  predicate Extends<S(==), V(==)>(small: Run<S, V>, large: Run<S, V>) { small.Done? ==> large == small }

  lemma {:induction false} GrowStmt<S, V>(env: Env<S, V>, pol: Policy, n: nat, m: nat, s: Stmt, st: S)
    requires n <= m
    ensures Extends(Exec(env, pol, n, s, st), Exec(env, pol, m, s, st))
    decreases Size(s), 0, 0
  {
    match s
    case Block(body) => GrowList(env, pol, n, m, body, BlockScope, [], st);
    case If(cond, thn, els) =>
      var (b, st1) := env.test(cond, st);
      if b {
        GrowList(env, pol, n, m, thn, BlockScope, [], st1);
      } else if els.Some? {
        GrowStmt(env, pol, n, m, els.value, st1);
      }
    case Match(scrutinee, arms) =>
      var (v, st1) := env.eval(scrutinee, st);
      GrowArms(env, pol, n, m, arms, v, st1);
    case While(cond, body) => GrowLoop(env, pol, n, m, n, m, Some(cond), None, body, st);
    case For(init, cond, post, body) => GrowLoop(env, pol, n, m, n, m, cond, post, body, ActOpt(env, init, st));
    case _ =>
  }

  lemma {:induction false} GrowList<S, V>(env: Env<S, V>, pol: Policy, n: nat, m: nat, ss: seq<Stmt>, k: Kind,
                                          pending: seq<Code>, st: S)
    requires n <= m
    ensures Extends(ExecList(env, pol, n, ss, k, pending, st), ExecList(env, pol, m, ss, k, pending, st))
    decreases ListSize(ss) + CodesSize(pending), 3, 0
  {
    if ss == [] {
      GrowPending(env, pol, n, m, pending, st);
    } else if ss[0].Defer? {
      PushSize(pending, ss[0].code);
      assert Size(ss[0]) == 1 + CodeSize(ss[0].code);
      GrowList(env, pol, n, m, ss[1..], k, pending + [ss[0].code], st);
    } else {
      GrowStmt(env, pol, n, m, ss[0], st);
      var r := Exec(env, pol, n, ss[0], st);
      if r.Done? {
        if r.out.Normal? {
          GrowList(env, pol, n, m, ss[1..], k, pending, r.st);
        } else {
          GrowPending(env, pol, n, m, pending, r.st);
        }
      }
    }
  }

  lemma {:induction false} GrowArms<S, V>(env: Env<S, V>, pol: Policy, n: nat, m: nat, arms: Arms, v: V, st: S)
    requires n <= m
    ensures Extends(ExecArms(env, pol, n, arms, v, st), ExecArms(env, pol, m, arms, v, st))
    decreases ArmsSize(arms), 1, 0
  {
    if arms.Arm? {
      if arms.pattern.None? {
        GrowStmt(env, pol, n, m, arms.body, st);
      } else {
        var (b, st1) := env.matches(arms.pattern.value, v, st);
        GrowStmt(env, pol, n, m, arms.body, st1);
        GrowArms(env, pol, n, m, arms.rest, v, st1);
      }
    }
  }

  lemma {:induction false} GrowLoop<S, V>(env: Env<S, V>, pol: Policy, n: nat, m: nat, left: nat, more: nat,
                                          cond: Option<Expr>, post: Option<Expr>, body: seq<Stmt>, st: S)
    requires n <= m && left <= more
    ensures Extends(Loop(env, pol, n, left, cond, post, body, st), Loop(env, pol, m, more, cond, post, body, st))
    decreases ListSize(body), 4, left
  {
    if left > 0 {
      var (b, st1) := TestOpt(env, cond, st);
      if b {
        GrowList(env, pol, n, m, body, LoopScope, [], st1);
        var r := ExecList(env, pol, n, body, LoopScope, [], st1);
        if r.Done? && (r.out.Normal? || r.out.Continued?) {
          GrowLoop(env, pol, n, m, left - 1, more - 1, cond, post, body, ActOpt(env, post, r.st));
        }
      }
    }
  }

  lemma {:induction false} GrowPending<S, V>(env: Env<S, V>, pol: Policy, n: nat, m: nat, p: seq<Code>, st: S)
    requires n <= m
    ensures Extends(RunPending(env, pol, n, p, st), RunPending(env, pol, m, p, st))
    decreases CodesSize(p), 1, 0
  {
    if p != [] {
      var c := p[|p| - 1];
      GrowCode(env, pol, n, m, c, st);
      var r := RunCode(env, pol, n, c, st);
      if r.Done? {
        GrowPending(env, pol, n, m, p[..|p| - 1], r.st);
      }
    }
  }

  lemma {:induction false} GrowCode<S, V>(env: Env<S, V>, pol: Policy, n: nat, m: nat, c: Code, st: S)
    requires n <= m
    ensures Extends(RunCode(env, pol, n, c, st), RunCode(env, pol, m, c, st))
    decreases CodeSize(c), 0, 0
  {
    if c.Braced? {
      GrowList(env, pol, n, m, c.stmts, BlockScope, [], st);
    }
  }

  /** The source function, started in `st`, ends with `r`. */
  ghost predicate Ends<S, V>(env: Env<S, V>, body: seq<Stmt>, st: S, r: Run<S, V>) {
    r.Done? && exists n :: ExecFunction(env, Documented, n, body, st) == r
  }

  /** The emitted function, started in `st`, ends with `r`. */
  ghost predicate EndsC<S, V>(env: Env<S, V>, body: seq<Stmt>, st: S, r: Run<S, V>) {
    r.Done? && exists n :: ExecTFunction(env, n, WeaveFunction(body), st) == r
  }

  /** Both programs end in the same way or both run for ever, and there is only one way to end. */
  lemma WeavingKeepsTermination<S, V>(env: Env<S, V>, body: seq<Stmt>, st: S, r: Run<S, V>, r': Run<S, V>)
    requires ListOk(body)
    ensures EndsC(env, body, st, r) <==> Ends(env, body, st, r)
    ensures EndsC(env, body, st, r) && EndsC(env, body, st, r') ==> r == r'
  {
    forall n ensures ExecTFunction(env, n, WeaveFunction(body), st) == ExecFunction(env, Documented, n, body, st) {
      WeavingKeepsMeaning(env, n, body, st);
    }
    if Ends(env, body, st, r) && Ends(env, body, st, r') {
      var n: nat :| ExecFunction(env, Documented, n, body, st) == r;
      var m: nat :| ExecFunction(env, Documented, m, body, st) == r';
      GrowList(env, Documented, n, n + m, body, FunctionScope, [], st);
      GrowList(env, Documented, m, n + m, body, FunctionScope, [], st);
    }
  }

  // ----- last in, first out -----

  /** `defer c0; defer c1; ...` */
  function Defers(cs: seq<Code>): seq<Stmt> {
    if cs == [] then [] else [Defer(cs[0])] + Defers(cs[1..])
  }

  /** Each code once, from the first to the last. */
  function RunInOrder<S, V>(env: Env<S, V>, n: nat, cs: seq<Code>, st: S): Run<S, V> {
    if cs == [] then Done(Normal, st)
    else
      var r := RunCode(env, Documented, n, cs[0], st);
      if r.Stuck? then Stuck else RunInOrder(env, n, cs[1..], r.st)
  }

  lemma {:induction false} PendingReversed<S, V>(env: Env<S, V>, n: nat, cs: seq<Code>, st: S)
    ensures RunPending(env, Documented, n, cs, st) == RunInOrder(env, n, Reverse(cs), st)
  {
    if cs != [] {
      var r := RunCode(env, Documented, n, cs[|cs| - 1], st);
      assert Reverse(cs)[0] == cs[|cs| - 1] && Reverse(cs)[1..] == Reverse(cs[..|cs| - 1]);
      if r.Done? {
        PendingReversed(env, n, cs[..|cs| - 1], r.st);
      }
    }
  }

  lemma OneRegistered<S, V>(env: Env<S, V>, n: nat, k: Kind, ss: seq<Stmt>, done: seq<Code>, st: S)
    requires ss != [] && ss[0].Defer?
    ensures ExecList(env, Documented, n, ss, k, done, st)
            == ExecList(env, Documented, n, ss[1..], k, done + [ss[0].code], st)
  {
    hide Leave, Exec;
  }

  lemma {:induction false} RegistersAll<S, V>(env: Env<S, V>, n: nat, k: Kind, cs: seq<Code>, tail: seq<Stmt>,
                                              done: seq<Code>, st: S)
    ensures ExecList(env, Documented, n, Defers(cs) + tail, k, done, st)
            == ExecList(env, Documented, n, tail, k, done + cs, st)
    decreases cs
  {
    hide ExecList;
    if cs == [] {
      assert Defers(cs) + tail == tail && done + cs == done;
    } else {
      var ss := Defers(cs) + tail;
      OneRegistered(env, n, k, ss, done, st);
      assert ss[0] == Defer(cs[0]) && ss[1..] == Defers(cs[1..]) + tail;
      assert done + cs == done + [cs[0]] + cs[1..];
      RegistersAll(env, n, k, cs[1..], tail, done + [cs[0]], st);
    }
  }

  /** Code that is pending when the rest of a scope starts runs when that rest is done. */
  lemma {:induction false} PendingApart<S, V>(env: Env<S, V>, n: nat, k: Kind, tail: seq<Stmt>, p: seq<Code>, st: S)
    requires !DirectDefer(tail)
    ensures ExecList(env, Documented, n, tail, k, p, st)
            == Leave(env, Documented, n, k, p, ExecList(env, Documented, n, tail, k, [], st))
    decreases tail
  {
    hide Exec;
    if tail != [] {
      assert !tail[0].Defer?;
      assert forall i :: 0 <= i < |tail[1..]| ==> tail[1..][i] == tail[i + 1];
      var r := Exec(env, Documented, n, tail[0], st);
      if r.Done? && r.out.Normal? {
        PendingApart(env, n, k, tail[1..], p, r.st);
      }
    }
  }

  /** How a scope ends that first registers the codes `cs` and then, by itself, ends with `r`: on every way out
      but a break or continue of its own loop, each code runs once, in the reverse of the order of registration. */
  function AfterDefers<S, V>(env: Env<S, V>, n: nat, k: Kind, cs: seq<Code>, r: Run<S, V>): Run<S, V> {
    if r.Stuck? || (k.LoopScope? && (r.out.Broke? || r.out.Continued?)) then r
    else
      var q := RunInOrder(env, n, Reverse(cs), r.st);
      if q.Stuck? then Stuck else Done(r.out, q.st)
  }

  /** For a scope of any kind, below any open scopes, with any deferred code, and however its other statements
      end: the source scope runs its deferred code last in, first out, and so does the emitted one before it
      leaves the scopes around it. */
  lemma LastInFirstOut<S, V>(env: Env<S, V>, n: nat, k: Kind, cs: seq<Code>, tail: seq<Stmt>, sc: seq<Scope>,
                             saved: seq<V>, st: S)
    requires ListOk(Defers(cs) + tail) && !DirectDefer(tail) && StackOk(sc)
    ensures var t := AfterDefers(env, n, k, cs, ExecList(env, Documented, n, tail, k, [], st));
            && ExecList(env, Documented, n, Defers(cs) + tail, k, [], st) == t
            && ExecTList(env, n, WeaveScope(Defers(cs) + tail, k, sc), saved, st) ==
               if k.LoopScope? && t.Done? && (t.out.Broke? || t.out.Continued?) then t
               else Settle(env, Unwind(env, n, sc, t))
  {
    hide ExecList, WeaveScope, RunPending, Exec, ExecTList, Unwind;
    RegistersAll(env, n, k, cs, tail, [], st);
    assert [] + cs == cs;
    PendingApart(env, n, k, tail, cs, st);
    var r := ExecList(env, Documented, n, tail, k, [], st);
    if r.Done? {
      PendingReversed(env, n, cs, r.st);
    }
    SimScope(env, n, Defers(cs) + tail, k, sc, saved, st);
  }

  // ----- returned values and deferred code -----

  /** The statement computes what is returned. */
  predicate Computes(t: Target, what: Returned) {
    match what
    case Void => false
    case Call(e) => t == TSave([e])
    case Plain(e) => t == TReturn(e)
    case Tuple(es) => t == TSave(es)
  }

  lemma CodesComputeNothing(p: seq<Code>, what: Returned)
    requires p != []
    ensures WeaveCodes(p) != [] && !Computes(WeaveCodes(p)[0], what)
  {}

  lemma {:induction false} FirstOfAll(sc: seq<Scope>, what: Returned)
    ensures WeaveAll(sc) == [] <==> forall i :: 0 <= i < |sc| ==> sc[i].defers == []
    ensures WeaveAll(sc) != [] ==> !Computes(WeaveAll(sc)[0], what)
  {
    if sc != [] {
      FirstOfAll(Outer(sc), what);
      if Top(sc).defers != [] {
        CodesComputeNothing(Top(sc).defers, what);
        assert sc[|sc| - 1].defers != [];
      } else {
        assert forall i :: 0 <= i < |Outer(sc)| ==> Outer(sc)[i] == sc[i];
      }
    }
  }

  /** The emitted return starts by computing its value if and only if that is a call or a tuple, or no deferred
      code is pending in any scope. */
  lemma ValueComesFirst(what: Returned, sc: seq<Scope>)
    requires !what.Void?
    ensures Computes(Weave(Return(what), sc)[0], what) <==>
            !what.Plain? || forall i :: 0 <= i < |sc| ==> sc[i].defers == []
  {
    hide WeaveAll;
    FirstOfAll(sc, what);
    if what.Plain? {
      var all := WeaveAll(sc);
      assert all == [] ==> all + [TReturn(what.e)] == [TReturn(what.e)];
      assert all != [] ==> (all + [TReturn(what.e)])[0] == all[0];
    }
  }

  // ----- variadic functions -----

  /** An action behind a list runs if and only if the list falls through. */
  lemma {:induction false} ActionBehind<S, V>(env: Env<S, V>, n: nat, ts: seq<Target>, a: Expr, saved: seq<V>, st: S)
    ensures var r := ExecTList(env, n, ts, saved, st);
            ExecTList(env, n, ts + [TAct(a)], saved, st)
            == if r.Done? && r.out.Normal? then Done(Normal, env.act(a, r.st)) else r
    decreases ts
  {
    if ts == [] {
      assert ts + [TAct(a)] == [TAct(a)] && [TAct(a)][1..] == [];
    } else {
      assert (ts + [TAct(a)])[1..] == ts[1..] + [TAct(a)];
      var r := ExecT(env, n, ts[0], saved, st);
      if r.Done? && r.out.Normal? {
        ActionBehind(env, n, ts[1..], a, if ts[0].TSave? then EvalAll(env, ts[0].es, st).0 else saved, r.st);
      }
    }
  }

  /** The argument list of a variadic function is started before everything and ended if and only if control falls off
      the end of the body: a return leaves it open. */
  lemma VariadicEnds<S, V>(env: Env<S, V>, n: nat, body: seq<Stmt>, va: VaLines, st: S)
    requires ListOk(body)
    ensures var r := ExecFunction(env, Documented, n, body, env.act(va.start, env.act(va.list, st)));
            ExecTFunction(env, n, WeaveVariadic(body, Some(va)), st)
            == if r.Done? && r.out.Normal? then Done(Normal, env.act(va.end, r.st)) else r
  {
    hide WeaveFunction, ExecFunction;
    var b, c := WeaveFunction(body), [TAct(va.end)];
    var st1 := env.act(va.start, env.act(va.list, st));
    var all := [TAct(va.list), TAct(va.start)] + b + c;
    assert all[0] == TAct(va.list) && all[1..][0] == TAct(va.start) && all[1..][1..] == b + c;
    assert ExecTList(env, n, all, [], st) == ExecTList(env, n, all[1..], [], env.act(va.list, st));
    assert ExecTList(env, n, all[1..], [], env.act(va.list, st)) == ExecTList(env, n, b + c, [], st1);
    WeavingKeepsMeaning(env, n, body, st1);
    ActionBehind(env, n, b, va.end, [], st1);
  }

  // ----- loop exits and the scope of the loop -----

  /** The deferred code of the innermost loop scope. */
  function LoopDefers(sc: seq<Scope>): seq<Code> {
    if sc == [] then [] else if Top(sc).kind.LoopScope? then Top(sc).defers else LoopDefers(Outer(sc))
  }

  /** The deferred code of every scope that a loop exit leaves, the loop's own scope included. */
  function WeaveThroughLoop(sc: seq<Scope>): seq<Target> {
    if sc == [] then [] else
      WeaveCodes(Top(sc).defers) + (if Top(sc).kind.LoopScope? then [] else WeaveThroughLoop(Outer(sc)))
  }

  lemma CodesEmitted(p: seq<Code>)
    ensures WeaveCodes(p) == [] <==> p == []
  {}

  /** A break or continue is preceded by all the deferred code it leaves behind exactly when the loop body
      itself has registered none before it. */
  lemma {:induction false} LoopExitIsComplete(sc: seq<Scope>)
    ensures WeaveToLoop(sc) == WeaveThroughLoop(sc) <==> LoopDefers(sc) == []
  {
    if sc != [] {
      CodesEmitted(Top(sc).defers);
      if !Top(sc).kind.LoopScope? {
        LoopExitIsComplete(Outer(sc));
        var w := WeaveCodes(Top(sc).defers);
        assert (w + WeaveToLoop(Outer(sc)))[|w|..] == WeaveToLoop(Outer(sc));
        assert (w + WeaveThroughLoop(Outer(sc)))[|w|..] == WeaveThroughLoop(Outer(sc));
      }
    }
  }

  // ----- the clauses written for a match -----

  function Wildcards(arms: Arms): nat {
    if arms.NoArms? then 0 else (if arms.pattern.None? then 1 else 0) + Wildcards(arms.rest)
  }

  lemma {:induction false} ContinuationExact(arms: Arms, sc: seq<Scope>)
    requires Wildcards(arms) == 1
    ensures Continuation(WeaveArms(arms, false, sc)) <==> WildcardLast(arms)
  {
    if arms.pattern.None? {
      if arms.rest.Arm? {
        assert WeaveArms(arms, false, sc).rest.Clause?;
      }
    } else {
      ContinuationExact(arms.rest, sc);
    }
  }

  /** The parser allows exactly one wildcard, anywhere. The clauses emitted for such a match are accepted by
      C exactly when some `case` comes first and the wildcard comes last. */
  lemma MatchIsGrammatical(arms: Arms, sc: seq<Scope>)
    requires Wildcards(arms) == 1
    ensures Grammatical(WeaveArms(arms, true, sc)) <==> ArmsInOrder(arms)
  {
    if !arms.pattern.None? {
      ContinuationExact(arms.rest, sc);
    }
  }
}
