/** When weaving also keeps the strict reading, in which a loop body's own deferred code runs on break and
    continue, and a returned value is computed before the deferred code. */
module DeferPolicies {
  import opened Options
  import opened DeferSyntax
  import opened DeferSource
  import opened DeferTarget
  import opened DeferWeaving
  import opened DeferProof

  /** Computing `e` gives the same value, and the same state in the end, before and after the code `c`. */
  ghost predicate Commutes<S(!new), V(!new)>(env: Env<S, V>, n: nat, e: Expr, c: Code) {
    forall st: S ::
      var (v, st1) := env.eval(e, st);
      var before := RunCode(env, Documented, n, c, st1);
      var after := RunCode(env, Documented, n, c, st);
      if after.Stuck? then before.Stuck? else before.Done? && env.eval(e, after.st) == (v, before.st)
  }

  /** No break or continue is met while the innermost loop body has deferred code of its own pending (`dirty`),
      and every returned single expression other than a call commutes with each code of `cs`, the deferred code
      that is pending there in any open scope. */
  ghost predicate StrictSafe<S(!new), V(!new)>(env: Env<S, V>, n: nat, s: Stmt, dirty: bool, cs: set<Code>)
    decreases s, 1
  {
    match s
    case Action(_) => true
    case Defer(_) => true
    case Block(body) => SafeList(env, n, body, false, dirty, cs)
    case If(_, thn, els) =>
      SafeList(env, n, thn, false, dirty, cs) && (els.Some? ==> StrictSafe(env, n, els.value, dirty, cs))
    case Match(_, arms) => SafeArms(env, n, arms, dirty, cs)
    case While(_, body) => SafeList(env, n, body, true, false, cs)
    case For(_, _, _, body) => SafeList(env, n, body, true, false, cs)
    case Return(what) => what.Plain? ==> forall c :: c in cs ==> Commutes(env, n, what.e, c)
    case Break => !dirty
    case Continue => !dirty
  }

  /** A `defer` makes its code pending; in the list of a loop body itself it makes what follows dirty. */
  ghost predicate SafeList<S(!new), V(!new)>(env: Env<S, V>, n: nat, ss: seq<Stmt>, inLoopBody: bool, dirty: bool,
                                             cs: set<Code>)
    decreases ss, 0
  {
    ss == [] ||
    if ss[0].Defer? then SafeList(env, n, ss[1..], inLoopBody, dirty || inLoopBody, cs + {ss[0].code})
    else StrictSafe(env, n, ss[0], dirty, cs) && SafeList(env, n, ss[1..], inLoopBody, dirty, cs)
  }

  ghost predicate SafeArms<S(!new), V(!new)>(env: Env<S, V>, n: nat, arms: Arms, dirty: bool, cs: set<Code>)
    decreases arms, 0
  {
    arms.Arm? ==> StrictSafe(env, n, arms.body, dirty, cs) && SafeArms(env, n, arms.rest, dirty, cs)
  }

  /** The documented run `d` and the strict run `t` are equal, except that a value computed first in `t` may
      still be due in `d`; it commutes with the code of `cs`. */
  ghost predicate Related<S(!new), V(!new)>(env: Env<S, V>, n: nat, cs: set<Code>, d: Run<S, V>, t: Run<S, V>) {
    || d == t
    || (d.Done? && t.Done? && d.out.Late? && (forall c :: c in cs ==> Commutes(env, n, d.out.e, c)) &&
        var (v, st) := env.eval(d.out.e, d.st); t.out == Returns([v]) && t.st == st)
  }

  ghost predicate PendingIn(p: seq<Code>, cs: set<Code>) {
    forall i :: 0 <= i < |p| ==> p[i] in cs && !CodeHasControlFlow(p[i])
  }

  lemma {:induction false} AgreeStmt<S(!new), V(!new)>(env: Env<S, V>, n: nat, s: Stmt, dirty: bool, cs: set<Code>, st: S)
    requires WellFormed(s) && !s.Defer? && StrictSafe(env, n, s, dirty, cs)
    ensures var d := Exec(env, Documented, n, s, st);
            && Related(env, n, cs, d, Exec(env, Strict, n, s, st))
            && (d.Done? && (d.out.Broke? || d.out.Continued?) ==> !dirty)
    decreases Size(s), 0, 0
  {
    match s
    case Block(body) => AgreeList(env, n, body, BlockScope, false, dirty, [], cs, st);
    case If(cond, thn, els) =>
      var (b, st1) := env.test(cond, st);
      if b {
        AgreeList(env, n, thn, BlockScope, false, dirty, [], cs, st1);
      } else if els.Some? {
        AgreeStmt(env, n, els.value, dirty, cs, st1);
      }
    case Match(scrutinee, arms) =>
      var (v, st1) := env.eval(scrutinee, st);
      AgreeArms(env, n, arms, dirty, cs, v, st1);
    case While(cond, body) => AgreeLoop(env, n, n, Some(cond), None, body, cs, st);
    case For(init, cond, post, body) => AgreeLoop(env, n, n, cond, post, body, cs, ActOpt(env, init, st));
    case _ =>
  }

  lemma {:induction false} AgreeList<S(!new), V(!new)>(env: Env<S, V>, n: nat, ss: seq<Stmt>, k: Kind, inLoopBody: bool,
                                                       dirty: bool, pending: seq<Code>, cs: set<Code>, st: S)
    requires ListOk(ss) && SafeList(env, n, ss, inLoopBody, dirty, cs)
    requires PendingIn(pending, cs) && (inLoopBody <==> k.LoopScope?) && (inLoopBody && pending != [] ==> dirty)
    ensures var d := ExecList(env, Documented, n, ss, k, pending, st);
            && Related(env, n, cs, d, ExecList(env, Strict, n, ss, k, pending, st))
            && (d.Done? && (d.out.Broke? || d.out.Continued?) ==> !dirty)
    decreases ListSize(ss), 1, 0
  {
    if ss == [] {
      AgreeLeave(env, n, k, pending, cs, Done(Normal, st), Done(Normal, st));
    } else if ss[0].Defer? {
      assert CodeOk(ss[0].code) && !CodeHasControlFlow(ss[0].code);
      AgreeList(env, n, ss[1..], k, inLoopBody, dirty || inLoopBody, pending + [ss[0].code], cs + {ss[0].code}, st);
    } else {
      AgreeStmt(env, n, ss[0], dirty, cs, st);
      var d := Exec(env, Documented, n, ss[0], st);
      if d.Done? && d.out.Normal? {
        AgreeList(env, n, ss[1..], k, inLoopBody, dirty, pending, cs, d.st);
      } else {
        AgreeLeave(env, n, k, pending, cs, d, Exec(env, Strict, n, ss[0], st));
      }
    }
  }

  lemma {:induction false} AgreeArms<S(!new), V(!new)>(env: Env<S, V>, n: nat, arms: Arms, dirty: bool, cs: set<Code>,
                                                       v: V, st: S)
    requires ArmsOk(arms) && SafeArms(env, n, arms, dirty, cs)
    ensures var d := ExecArms(env, Documented, n, arms, v, st);
            && Related(env, n, cs, d, ExecArms(env, Strict, n, arms, v, st))
            && (d.Done? && (d.out.Broke? || d.out.Continued?) ==> !dirty)
    decreases ArmsSize(arms), 1, 0
  {
    if arms.Arm? {
      if arms.pattern.None? {
        AgreeStmt(env, n, arms.body, dirty, cs, st);
      } else {
        var (b, st1) := env.matches(arms.pattern.value, v, st);
        AgreeStmt(env, n, arms.body, dirty, cs, st1);
        AgreeArms(env, n, arms.rest, dirty, cs, v, st1);
      }
    }
  }

  lemma {:induction false} AgreeLoop<S(!new), V(!new)>(env: Env<S, V>, n: nat, left: nat, cond: Option<Expr>,
                                                       post: Option<Expr>, body: seq<Stmt>, cs: set<Code>, st: S)
    requires ListOk(body) && SafeList(env, n, body, true, false, cs)
    ensures var d := Loop(env, Documented, n, left, cond, post, body, st);
            && Related(env, n, cs, d, Loop(env, Strict, n, left, cond, post, body, st))
            && (d.Done? ==> !d.out.Broke? && !d.out.Continued?)
    decreases ListSize(body), 2, left
  {
    if left > 0 {
      var (b, st1) := TestOpt(env, cond, st);
      if b {
        AgreeList(env, n, body, LoopScope, true, false, [], cs, st1);
        var d := ExecList(env, Documented, n, body, LoopScope, [], st1);
        if d.Done? && (d.out.Normal? || d.out.Continued?) {
          AgreeLoop(env, n, left - 1, cond, post, body, cs, ActOpt(env, post, d.st));
        }
      }
    }
  }

  /** Leaving a scope keeps the relation. */
  lemma AgreeLeave<S(!new), V(!new)>(env: Env<S, V>, n: nat, k: Kind, pending: seq<Code>, cs: set<Code>, d: Run<S, V>,
                                     t: Run<S, V>)
    requires Related(env, n, cs, d, t) && PendingIn(pending, cs)
    requires d.Done? && (d.out.Broke? || d.out.Continued?) && k.LoopScope? ==> pending == []
    ensures Related(env, n, cs, Leave(env, Documented, n, k, pending, d), Leave(env, Strict, n, k, pending, t))
  {
    if d.Done? {
      PendingFallsThrough(env, Strict, n, pending, t.st);
      if d != t {
        AgreePending(env, n, pending, d.out.e, d.st);
      }
    }
  }

  /** A value computed before pending code is the one computed after it. */
  lemma {:induction false} AgreePending<S(!new), V(!new)>(env: Env<S, V>, n: nat, p: seq<Code>, e: Expr, st: S)
    requires forall i :: 0 <= i < |p| ==> Commutes(env, n, e, p[i])
    ensures var (v, st1) := env.eval(e, st);
            var before := RunPending(env, Documented, n, p, st1);
            var after := RunPending(env, Documented, n, p, st);
            if after.Stuck? then before.Stuck? else before.Done? && env.eval(e, after.st) == (v, before.st)
  {
    if p != [] {
      var c := p[|p| - 1];
      assert Commutes(env, n, e, c);
      var after := RunCode(env, Documented, n, c, st);
      if after.Done? {
        AgreePending(env, n, p[..|p| - 1], e, after.st);
      }
    }
  }

  /** Under the two conditions the emitted function has the strict meaning as well. */
  lemma WeavingKeepsStrictMeaning<S(!new), V(!new)>(env: Env<S, V>, n: nat, body: seq<Stmt>, st: S)
    requires ListOk(body) && SafeList(env, n, body, false, false, {})
    ensures ExecTFunction(env, n, WeaveFunction(body), st) == ExecFunction(env, Strict, n, body, st)
  {
    WeavingKeepsMeaning(env, n, body, st);
    AgreeList(env, n, body, FunctionScope, false, false, [], {}, st);
  }

  // ----- outside the conditions -----

  /** Expressions that write their number to a log; every test succeeds, and a returned value is the length
      of the log. */
  const Logging: Env<seq<nat>, int> := Env(
    (a: Expr, log: seq<nat>) => log + [a.id],
    (t: Expr, log: seq<nat>) => (true, log),
    (e: Expr, log: seq<nat>) => (|log|, log),
    (p: Expr, v: int, log: seq<nat>) => (true, log))

  /** An expression without names. */
  function E(id: nat): Expr {
    Expr(id, {}, [], false, map[])
  }

  /** `while 0 { defer 1; break; }`: the emitted code never runs the deferred action. */
  lemma BreakSkipsLoopDefers()
    ensures var body := [While(E(0), [Defer(Single(E(1))), Break])];
            && ListOk(body)
            && ExecTFunction(Logging, 1, WeaveFunction(body), []) == Done(Normal, [])
            && ExecFunction(Logging, Strict, 1, body, []) == Done(Normal, [1])
  {
    var inner := [Defer(Single(E(1))), Break];
    var body := [While(E(0), inner)];
    assert inner[1..] == [Break] && inner[1..][1..] == [] && body[1..] == [];
    assert WellFormed(inner[0]) && WellFormed(Break) && ListOk([Break]) && ListOk(inner) && WellFormed(body[0]);
    WeavingKeepsMeaning(Logging, 1, body, []);
    LoopOnce(Documented);
    LoopOnce(Strict);
  }

  lemma LoopOnce(pol: Policy)
    ensures ExecFunction(Logging, pol, 1, [While(E(0), [Defer(Single(E(1))), Break])], [])
            == Done(Normal, if pol.loopExitsRunDefers then [1] else [])
  {
    hide RunPending, ExecList, Leave, Loop;
    var c, log: seq<nat> := Single(E(1)), [];
    var inner := [Defer(c), Break];
    DeferThenExit(Logging, pol, 1, LoopScope, c, Break, log);
    LogsOne(pol, 1);
    LeaveLoopOnce(pol);
    LoopBroken(pol, inner, if pol.loopExitsRunDefers then [1] else []);
    OneStatement(Logging, pol, 1, While(E(0), inner), log);
  }

  lemma LeaveLoopOnce(pol: Policy)
    requires RunPending(Logging, pol, 1, [Single(E(1))], []) == Done(Normal, [1])
    ensures Leave(Logging, pol, 1, LoopScope, [Single(E(1))], Done(Broke, []))
            == Done(Broke, if pol.loopExitsRunDefers then [1] else [])
  {
    hide RunPending;
  }

  lemma LoopBroken(pol: Policy, inner: seq<Stmt>, log: seq<nat>)
    requires ExecList(Logging, pol, 1, inner, LoopScope, [], []) == Done(Broke, log)
    ensures Loop(Logging, pol, 1, 1, Some(E(0)), None, inner, []) == Done(Normal, log)
  {
    hide ExecList;
  }

  lemma OneStatement<S, V>(env: Env<S, V>, pol: Policy, n: nat, s: Stmt, st: S)
    requires !s.Defer? && Exec(env, pol, n, s, st).Done? && Exec(env, pol, n, s, st).out.Normal?
    ensures ExecList(env, pol, n, [s], FunctionScope, [], st) == Exec(env, pol, n, s, st)
  {
    hide Exec;
    assert [s][1..] == [];
  }

  /** `defer 1; return 2;`: the emitted code computes the value after the deferred action. */
  lemma ReturnIsComputedLast()
    ensures var body := [Defer(Single(E(1))), Return(Plain(E(2)))];
            && ListOk(body)
            && ExecTFunction(Logging, 0, WeaveFunction(body), []) == Done(Returns([1]), [1])
            && ExecFunction(Logging, Strict, 0, body, []) == Done(Returns([0]), [1])
  {
    hide RunPending, ExecList;
    var body := [Defer(Single(E(1))), Return(Plain(E(2)))];
    assert body[1..] == [Return(Plain(E(2)))] && body[1..][1..] == [];
    assert WellFormed(body[0]) && WellFormed(body[1]) && ListOk(body[1..]);
    WeavingKeepsMeaning(Logging, 0, body, []);
    ReturnOnce(Documented);
    ReturnOnce(Strict);
  }

  lemma ReturnOnce(pol: Policy)
    ensures ExecFunction(Logging, pol, 0, [Defer(Single(E(1))), Return(Plain(E(2)))], [])
            == Done(Returns([if pol.returnsFirst then 0 else 1]), [1])
  {
    hide RunPending, ExecList, Leave;
    var c := Single(E(1));
    var r := Exec(Logging, pol, 0, Return(Plain(E(2))), []);
    DeferThenExit(Logging, pol, 0, FunctionScope, c, Return(Plain(E(2))), []);
    LogsOne(pol, 0);
    LeaveOnce(pol, r);
  }

  /** A body that defers and then leaves. */
  lemma DeferThenExit<S, V>(env: Env<S, V>, pol: Policy, n: nat, k: Kind, c: Code, s: Stmt, st: S)
    requires !s.Defer? && Exec(env, pol, n, s, st).Done? && !Exec(env, pol, n, s, st).out.Normal?
    ensures ExecList(env, pol, n, [Defer(c), s], k, [], st)
            == Leave(env, pol, n, k, [c], Exec(env, pol, n, s, st))
  {
    hide Leave, Exec, RunPending;
    assert [Defer(c), s][1..] == [s] && [] + [c] == [c];
    assert ExecList(env, pol, n, [s], k, [c], st) == Leave(env, pol, n, k, [c], Exec(env, pol, n, s, st));
  }

  lemma LogsOne(pol: Policy, n: nat)
    ensures RunPending(Logging, pol, n, [Single(E(1))], []) == Done(Normal, [1])
  {
    var log: seq<nat> := [];
    var p := [Single(E(1))];
    assert log + [1] == [1] && p[..0] == [];
    assert RunCode(Logging, pol, n, p[0], log) == Done(Normal, [1]);
  }

  lemma LeaveOnce(pol: Policy, r: Run<seq<nat>, int>)
    requires r.Done? && r.st == [] && RunPending(Logging, pol, 0, [Single(E(1))], []) == Done(Normal, [1])
    ensures Leave(Logging, pol, 0, FunctionScope, [Single(E(1))], r) == Done(r.out, [1])
  {
    hide RunPending;
  }
}
