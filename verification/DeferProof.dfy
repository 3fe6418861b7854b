/** Weaving keeps the meaning of every body, for all expressions, states and loop bounds. */
module DeferProof {
  import opened Options
  import opened DeferSyntax
  import opened DeferSource
  import opened DeferTarget
  import opened DeferWeaving

  /** Lets an outcome travel outwards through the scopes `sc` that it leaves. */
  function Unwind<S, V>(env: Env<S, V>, n: nat, sc: seq<Scope>, r: Run<S, V>): Run<S, V> {
    if r.Stuck? || r.out.Normal? || sc == [] then r
    else if (r.out.Broke? || r.out.Continued?) && Top(sc).kind.LoopScope? then r
    else Unwind(env, n, Outer(sc), Leave(env, Documented, n, Top(sc).kind, Top(sc).defers, r))
  }

  /** The same for an outcome that has already left the innermost scope. */
  function UnwindOuter<S, V>(env: Env<S, V>, n: nat, sc: seq<Scope>, r: Run<S, V>): Run<S, V>
    requires sc != []
  {
    if r.Done? && (r.out.Broke? || r.out.Continued?) && Top(sc).kind.LoopScope? then r
    else Unwind(env, n, Outer(sc), r)
  }

  predicate StackOk(sc: seq<Scope>) {
    forall i :: 0 <= i < |sc| ==> CodesOk(sc[i].defers)
  }

  // ----- deferred code falls through, whatever the policy -----

  /** The run ends normally or not at all, and is the one of the documented policy. */
  predicate Placid<S(==), V(==)>(r: Run<S, V>, documented: Run<S, V>) {
    r == documented && (r.Stuck? || r.out.Normal?)
  }

  predicate NoFlow(p: seq<Code>) {
    forall i :: 0 <= i < |p| ==> !CodeHasControlFlow(p[i])
  }

  lemma {:induction false} StmtFallsThrough<S, V>(env: Env<S, V>, pol: Policy, n: nat, s: Stmt, st: S)
    requires !HasControlFlow(s)
    ensures Placid(Exec(env, pol, n, s, st), Exec(env, Documented, n, s, st))
    decreases Size(s), 0, 0
  {
    match s
    case Block(body) => ListFallsThrough(env, pol, n, body, BlockScope, [], st);
    case If(cond, thn, els) =>
      var (b, st1) := env.test(cond, st);
      if b {
        ListFallsThrough(env, pol, n, thn, BlockScope, [], st1);
      } else if els.Some? {
        StmtFallsThrough(env, pol, n, els.value, st1);
      }
    case Match(scrutinee, arms) =>
      var (v, st1) := env.eval(scrutinee, st);
      ArmsFallThrough(env, pol, n, arms, v, st1);
    case While(cond, body) => LoopFallsThrough(env, pol, n, n, Some(cond), None, body, st);
    case For(init, cond, post, body) => LoopFallsThrough(env, pol, n, n, cond, post, body, ActOpt(env, init, st));
    case _ =>
  }

  lemma {:induction false} ListFallsThrough<S, V>(env: Env<S, V>, pol: Policy, n: nat, ss: seq<Stmt>, k: Kind,
                                                  pending: seq<Code>, st: S)
    requires !ListHasControlFlow(ss) && NoFlow(pending)
    ensures Placid(ExecList(env, pol, n, ss, k, pending, st), ExecList(env, Documented, n, ss, k, pending, st))
    decreases ListSize(ss) + CodesSize(pending), 3, 0
  {
    if ss == [] {
      PendingFallsThrough(env, pol, n, pending, st);
    } else if ss[0].Defer? {
      PushSize(pending, ss[0].code);
      assert Size(ss[0]) == 1 + CodeSize(ss[0].code);
      ListFallsThrough(env, pol, n, ss[1..], k, pending + [ss[0].code], st);
    } else {
      StmtFallsThrough(env, pol, n, ss[0], st);
      var r := Exec(env, pol, n, ss[0], st);
      if r.Done? {
        ListFallsThrough(env, pol, n, ss[1..], k, pending, r.st);
      }
    }
  }

  lemma {:induction false} PendingFallsThrough<S, V>(env: Env<S, V>, pol: Policy, n: nat, p: seq<Code>, st: S)
    requires NoFlow(p)
    ensures Placid(RunPending(env, pol, n, p, st), RunPending(env, Documented, n, p, st))
    decreases CodesSize(p), 1, 0
  {
    if p != [] {
      CodeFallsThrough(env, pol, n, p[|p| - 1], st);
      var r := RunCode(env, pol, n, p[|p| - 1], st);
      if r.Done? {
        PendingFallsThrough(env, pol, n, p[..|p| - 1], r.st);
      }
    }
  }

  lemma {:induction false} ArmsFallThrough<S, V>(env: Env<S, V>, pol: Policy, n: nat, arms: Arms, v: V, st: S)
    requires !ArmsHaveControlFlow(arms)
    ensures Placid(ExecArms(env, pol, n, arms, v, st), ExecArms(env, Documented, n, arms, v, st))
    decreases ArmsSize(arms), 1, 0
  {
    if arms.Arm? {
      if arms.pattern.None? {
        StmtFallsThrough(env, pol, n, arms.body, st);
      } else {
        var (b, st1) := env.matches(arms.pattern.value, v, st);
        StmtFallsThrough(env, pol, n, arms.body, st1);
        ArmsFallThrough(env, pol, n, arms.rest, v, st1);
      }
    }
  }

  lemma {:induction false} LoopFallsThrough<S, V>(env: Env<S, V>, pol: Policy, n: nat, left: nat, cond: Option<Expr>,
                                                  post: Option<Expr>, body: seq<Stmt>, st: S)
    requires !ListHasControlFlow(body)
    ensures Placid(Loop(env, pol, n, left, cond, post, body, st), Loop(env, Documented, n, left, cond, post, body, st))
    decreases ListSize(body), 4, left
  {
    if left > 0 {
      var (b, st1) := TestOpt(env, cond, st);
      if b {
        ListFallsThrough(env, pol, n, body, LoopScope, [], st1);
        var r := ExecList(env, pol, n, body, LoopScope, [], st1);
        if r.Done? {
          LoopFallsThrough(env, pol, n, left - 1, cond, post, body, ActOpt(env, post, r.st));
        }
      }
    }
  }

  /** What the checker accepts as deferred code leaves no trace in the control flow, under either policy. */
  lemma {:induction false} CodeFallsThrough<S, V>(env: Env<S, V>, pol: Policy, n: nat, c: Code, st: S)
    requires !CodeHasControlFlow(c)
    ensures Placid(RunCode(env, pol, n, c, st), RunCode(env, Documented, n, c, st))
    decreases CodeSize(c), 0, 0
  {
    if c.Braced? {
      ListFallsThrough(env, pol, n, c.stmts, BlockScope, [], st);
    }
  }

  // ----- the simulation -----

  lemma {:induction false} CodesHaveNoSave(p: seq<Code>)
    ensures NoSave(WeaveCodes(p))
  {
    if p != [] {
      CodesHaveNoSave(p[..|p| - 1]);
    }
  }

  lemma {:induction false} AllHaveNoSave(sc: seq<Scope>)
    ensures NoSave(WeaveAll(sc)) && NoSave(WeaveToLoop(sc))
  {
    if sc != [] {
      CodesHaveNoSave(Top(sc).defers);
      AllHaveNoSave(Outer(sc));
    }
  }

  /** Only a return needs a temporary, and it ends its block. */
  lemma {:induction false} SaveOnlyInReturn(s: Stmt, sc: seq<Scope>)
    ensures s.Return? || NoSave(Weave(s, sc))
  {
    if s.Break? || s.Continue? {
      AllHaveNoSave(sc);
    }
  }

  lemma Alone<S, V>(env: Env<S, V>, n: nat, t: Target, saved: seq<V>, st: S)
    ensures ExecTList(env, n, [t], saved, st) == ExecT(env, n, t, saved, st)
  {
    var r := ExecT(env, n, t, saved, st);
    assert [t][1..] == [];
  }

  lemma {:induction false} SimStmt<S, V>(env: Env<S, V>, n: nat, s: Stmt, sc: seq<Scope>, saved: seq<V>, st: S)
    requires WellFormed(s) && !s.Defer? && StackOk(sc)
    ensures ExecTList(env, n, Weave(s, sc), saved, st)
            == Settle(env, Unwind(env, n, sc, Exec(env, Documented, n, s, st)))
    decreases Size(s) + StackSize(sc), 0, 0
  {
    match s
    case Action(a) =>
    case Block(body) => SimScope(env, n, body, BlockScope, sc, saved, st);
    case If(cond, thn, els) =>
      var (b, st1) := env.test(cond, st);
      if b {
        SimScope(env, n, thn, BlockScope, sc, saved, st1);
      } else if els.Some? {
        SimStmt(env, n, els.value, sc, saved, st1);
      }
    case Match(scrutinee, arms) =>
      var (v, st1) := env.eval(scrutinee, st);
      SimArms(env, n, arms, true, v, sc, saved, st1);
      var m := TMatch(scrutinee, WeaveArms(arms, true, sc));
      Alone(env, n, m, saved, st);
      Alone(env, n, TBlock([m]), saved, st);
    case While(cond, body) => SimLoop(env, n, n, Some(cond), None, body, sc, saved, st);
    case For(init, cond, post, body) => SimLoop(env, n, n, cond, post, body, sc, saved, ActOpt(env, init, st));
    case Return(what) => SimReturn(env, n, what, sc, saved, st);
    case Break => SimToLoop(env, n, sc, Broke, [TBreak], saved, st);
    case Continue => SimToLoop(env, n, sc, Continued, [TContinue], saved, st);
  }

  lemma {:induction false} SimReturn<S, V>(env: Env<S, V>, n: nat, what: Returned, sc: seq<Scope>, saved: seq<V>, st: S)
    requires StackOk(sc)
    ensures ExecTList(env, n, Weave(Return(what), sc), saved, st)
            == Settle(env, Unwind(env, n, sc, Exec(env, Documented, n, Return(what), st)))
    decreases StackSize(sc), 4, 2
  {
    hide ExecTList, WeaveAll, Unwind, EvalAll;
    match what
    case Void =>
      SimAll(env, n, sc, Returns([]), [TReturnVoid], saved, st);
      LastStep(env, n, TReturnVoid, saved, Unwind(env, n, sc, Done(Returns([]), st)));
    case Plain(e) =>
      SimAll(env, n, sc, Late(e), [TReturn(e)], saved, st);
      LastStep(env, n, TReturn(e), saved, Unwind(env, n, sc, Done(Late(e), st)));
    case Call(e) =>
      var (v, st1) := env.eval(e, st);
      EvalOne(env, e, st);
      SimSaved(env, n, [e], sc, saved, st);
    case Tuple(es) =>
      SimSaved(env, n, es, sc, saved, st);
  }

  lemma EvalOne<S, V>(env: Env<S, V>, e: Expr, st: S)
    ensures var (v, st1) := env.eval(e, st); EvalAll(env, [e], st) == ([v], st1)
  {
    var (v, st1) := env.eval(e, st);
    assert EvalAll(env, [e][1..], st1) == ([], st1) && [v] + [] == [v];
  }

  /** The final return, run after everything else. */
  lemma LastStep<S, V>(env: Env<S, V>, n: nat, t: Target, saved: seq<V>, u: Run<S, V>)
    requires t.TReturnSaved? || t.TReturnVoid? || t.TReturn?
    ensures u.Done? ==> ExecTList(env, n, [t], saved, u.st) == ExecT(env, n, t, saved, u.st)
  {
    if u.Done? {
      Alone(env, n, t, saved, u.st);
    }
  }

  /** Returned values that are computed before the deferred code. */
  lemma {:induction false} SimSaved<S, V>(env: Env<S, V>, n: nat, es: seq<Expr>, sc: seq<Scope>, saved: seq<V>, st: S)
    requires StackOk(sc)
    ensures var (vs, st1) := EvalAll(env, es, st);
            ExecTList(env, n, [TSave(es)] + WeaveAll(sc) + [TReturnSaved], saved, st)
            == Settle(env, Unwind(env, n, sc, Done(Returns(vs), st1)))
    decreases StackSize(sc), 4, 1
  {
    hide WeaveAll, Unwind;
    var (vs, st1) := EvalAll(env, es, st);
    var ts := [TSave(es)] + WeaveAll(sc) + [TReturnSaved];
    assert ts[0] == TSave(es) && ts[1..] == WeaveAll(sc) + [TReturnSaved];
    SimAll(env, n, sc, Returns(vs), [TReturnSaved], vs, st1);
    LastStep(env, n, TReturnSaved, vs, Unwind(env, n, sc, Done(Returns(vs), st1)));
  }

  lemma {:induction false} SimScope<S, V>(env: Env<S, V>, n: nat, body: seq<Stmt>, k: Kind, sc: seq<Scope>, saved: seq<V>, st: S)
    requires ListOk(body) && StackOk(sc)
    ensures var r := ExecList(env, Documented, n, body, k, [], st);
            ExecTList(env, n, WeaveScope(body, k, sc), saved, st) ==
              if k.LoopScope? && r.Done? && (r.out.Broke? || r.out.Continued?) then r
              else Settle(env, Unwind(env, n, sc, r))
    decreases ListSize(body) + StackSize(sc), 6, 0
  {
    EnterSize(sc, Scope(k, []));
    SimList(env, n, body, sc + [Scope(k, [])], saved, st);
  }

  lemma {:induction false} SimList<S, V>(env: Env<S, V>, n: nat, ss: seq<Stmt>, sc: seq<Scope>, saved: seq<V>, st: S)
    requires ListOk(ss) && sc != [] && StackOk(sc)
    ensures ExecTList(env, n, WeaveList(ss, sc), saved, st)
            == Settle(env, UnwindOuter(env, n, sc, ExecList(env, Documented, n, ss, Top(sc).kind, Top(sc).defers, st)))
    decreases ListSize(ss) + StackSize(sc), 5, 0
  {
    if ss == [] {
      SimCodes(env, n, Top(sc).defers, saved, st);
    } else if ss[0].Defer? {
      RegisterSize(sc, ss[0].code);
      assert Size(ss[0]) == 1 + CodeSize(ss[0].code);
      SimList(env, n, ss[1..], Register(sc, ss[0].code), saved, st);
    } else {
      var r := Exec(env, Documented, n, ss[0], st);
      SimHead(env, n, ss, sc, saved, st);
      if r.Done? && r.out.Normal? {
        SimList(env, n, ss[1..], sc, saved, r.st);
      }
    }
  }

  /** The step of `SimList` over a statement that registers nothing. */
  lemma {:induction false} SimHead<S, V>(env: Env<S, V>, n: nat, ss: seq<Stmt>, sc: seq<Scope>, saved: seq<V>, st: S)
    requires ss != [] && !ss[0].Defer? && ListOk(ss) && sc != [] && StackOk(sc)
    ensures var r := Exec(env, Documented, n, ss[0], st);
            var t := ExecTList(env, n, WeaveList(ss, sc), saved, st);
            if r.Done? && r.out.Normal? then t == ExecTList(env, n, WeaveList(ss[1..], sc), saved, r.st)
            else t == Settle(env, Unwind(env, n, sc, r))
    decreases ListSize(ss) + StackSize(sc), 4, 0
  {
    SimStmt(env, n, ss[0], sc, saved, st);
    SaveOnlyInReturn(ss[0], sc);
    ExecAppend(env, n, Weave(ss[0], sc), WeaveList(ss[1..], sc), saved, st);
    UnwindKeeps(env, n, sc, Exec(env, Documented, n, ss[0], st));
  }

  /** Travelling outwards never turns an exit into a normal end. */
  lemma {:induction false} UnwindKeeps<S, V>(env: Env<S, V>, n: nat, sc: seq<Scope>, r: Run<S, V>)
    ensures var u := Unwind(env, n, sc, r); u.Stuck? || (r.Done? && u.out == r.out)
  {
    if r.Stuck? || r.out.Normal? || sc == [] || ((r.out.Broke? || r.out.Continued?) && Top(sc).kind.LoopScope?) {
    } else {
      UnwindKeeps(env, n, Outer(sc), Leave(env, Documented, n, Top(sc).kind, Top(sc).defers, r));
    }
  }

  lemma {:induction false} SimArms<S, V>(env: Env<S, V>, n: nat, arms: Arms, first: bool, v: V, sc: seq<Scope>,
                                         saved: seq<V>, st: S)
    requires ArmsOk(arms) && StackOk(sc)
    ensures ExecClauses(env, n, WeaveArms(arms, first, sc), v, saved, st)
            == Settle(env, Unwind(env, n, sc, ExecArms(env, Documented, n, arms, v, st)))
    decreases ArmsSize(arms) + StackSize(sc), 2, 0
  {
    if arms.Arm? {
      if arms.pattern.None? {
        SimArm(env, n, arms.body, sc, saved, st);
      } else {
        var (b, st1) := env.matches(arms.pattern.value, v, st);
        SimArm(env, n, arms.body, sc, saved, st1);
        SimArms(env, n, arms.rest, false, v, sc, saved, st1);
      }
    }
  }

  lemma {:induction false} SimArm<S, V>(env: Env<S, V>, n: nat, s: Stmt, sc: seq<Scope>, saved: seq<V>, st: S)
    requires WellFormed(s) && ArmBody(s) && StackOk(sc)
    ensures ExecTList(env, n, WeaveArm(s, sc), saved, st)
            == Settle(env, Unwind(env, n, sc, Exec(env, Documented, n, s, st)))
    decreases Size(s) + StackSize(sc), 1, 0
  {
    if s.Block? {
      SimScope(env, n, s.body, BlockScope, sc, saved, st);
    } else {
      SimStmt(env, n, s, sc, saved, st);
    }
  }

  lemma {:induction false} SimLoop<S, V>(env: Env<S, V>, n: nat, left: nat, cond: Option<Expr>, post: Option<Expr>,
                                         body: seq<Stmt>, sc: seq<Scope>, saved: seq<V>, st: S)
    requires ListOk(body) && StackOk(sc)
    ensures LoopT(env, n, left, cond, post, WeaveScope(body, LoopScope, sc), saved, st)
            == Settle(env, Unwind(env, n, sc, Loop(env, Documented, n, left, cond, post, body, st)))
    decreases ListSize(body) + StackSize(sc), 7, left
  {
    if left > 0 {
      var (b, st1) := TestOpt(env, cond, st);
      if b {
        SimScope(env, n, body, LoopScope, sc, saved, st1);
        var r := ExecList(env, Documented, n, body, LoopScope, [], st1);
        if r.Done? && (r.out.Normal? || r.out.Continued?) {
          SimLoop(env, n, left - 1, cond, post, body, sc, saved, ActOpt(env, post, r.st));
        } else {
          UnwindKeeps(env, n, sc, r);
        }
      }
    }
  }

  /** Emitting the deferred code of all scopes before `tail` is leaving all scopes. */
  lemma {:induction false} SimAll<S, V>(env: Env<S, V>, n: nat, sc: seq<Scope>, o: Outcome<V>, tail: seq<Target>,
                                        saved: seq<V>, st: S)
    requires StackOk(sc) && (o.Returns? || o.Late?)
    ensures var u := Unwind(env, n, sc, Done(o, st));
            var t := ExecTList(env, n, WeaveAll(sc) + tail, saved, st);
            if u.Stuck? then t.Stuck? else u.out == o && t == ExecTList(env, n, tail, saved, u.st)
    decreases StackSize(sc), 3, |sc|
  {
    if sc == [] {
      assert WeaveAll(sc) + tail == tail;
    } else {
      var p := Top(sc).defers;
      SimCodes(env, n, p, saved, st);
      CodesHaveNoSave(p);
      assert WeaveAll(sc) + tail == WeaveCodes(p) + (WeaveAll(Outer(sc)) + tail);
      ExecAppend(env, n, WeaveCodes(p), WeaveAll(Outer(sc)) + tail, saved, st);
      var q := RunPending(env, Documented, n, p, st);
      if q.Done? {
        SimAll(env, n, Outer(sc), o, tail, saved, q.st);
      }
    }
  }

  lemma {:induction false} SimToLoop<S, V>(env: Env<S, V>, n: nat, sc: seq<Scope>, o: Outcome<V>, tail: seq<Target>,
                                           saved: seq<V>, st: S)
    requires StackOk(sc) && (o.Broke? || o.Continued?)
    ensures var u := Unwind(env, n, sc, Done(o, st));
            var t := ExecTList(env, n, WeaveToLoop(sc) + tail, saved, st);
            if u.Stuck? then t.Stuck? else u.out == o && t == ExecTList(env, n, tail, saved, u.st)
    decreases StackSize(sc), 3, |sc|
  {
    if sc == [] || Top(sc).kind.LoopScope? {
      assert WeaveToLoop(sc) + tail == tail;
    } else {
      var p := Top(sc).defers;
      SimCodes(env, n, p, saved, st);
      CodesHaveNoSave(p);
      assert WeaveToLoop(sc) + tail == WeaveCodes(p) + (WeaveToLoop(Outer(sc)) + tail);
      ExecAppend(env, n, WeaveCodes(p), WeaveToLoop(Outer(sc)) + tail, saved, st);
      var q := RunPending(env, Documented, n, p, st);
      if q.Done? {
        SimToLoop(env, n, Outer(sc), o, tail, saved, q.st);
      }
    }
  }

  /** The emitted deferred code of one scope does what running its pending code does. */
  lemma {:induction false} SimCodes<S, V>(env: Env<S, V>, n: nat, p: seq<Code>, saved: seq<V>, st: S)
    requires CodesOk(p)
    ensures ExecTList(env, n, WeaveCodes(p), saved, st) == RunPending(env, Documented, n, p, st)
    decreases CodesSize(p), 2, 0
  {
    if p != [] {
      var c := p[|p| - 1];
      SimCode(env, n, c, saved, st);
      CodeFallsThrough(env, Documented, n, c, st);
      ExecAppend(env, n, WeaveCode(c), WeaveCodes(p[..|p| - 1]), saved, st);
      var r := RunCode(env, Documented, n, c, st);
      if r.Done? {
        SimCodes(env, n, p[..|p| - 1], saved, r.st);
      }
    }
  }

  lemma {:induction false} SimCode<S, V>(env: Env<S, V>, n: nat, c: Code, saved: seq<V>, st: S)
    requires CodeOk(c)
    ensures ExecTList(env, n, WeaveCode(c), saved, st) == RunCode(env, Documented, n, c, st)
    decreases CodeSize(c), 1, 0
  {
    if c.Braced? {
      CodeFallsThrough(env, Documented, n, c, st);
      SimPlain(env, n, c.stmts, saved, st);
    }
  }

  lemma {:induction false} SimPlain<S, V>(env: Env<S, V>, n: nat, ss: seq<Stmt>, saved: seq<V>, st: S)
    requires ListOk(ss) && !DirectDefer(ss) && !ListHasControlFlow(ss)
    ensures ExecTList(env, n, WeavePlain(ss), saved, st) == ExecList(env, Documented, n, ss, BlockScope, [], st)
    decreases ListSize(ss), 5, 0
  {
    if ss != [] {
      assert !ss[0].Defer?;
      assert forall i :: 0 <= i < |ss[1..]| ==> ss[1..][i] == ss[i + 1];
      SimStmt(env, n, ss[0], [], saved, st);
      StmtFallsThrough(env, Documented, n, ss[0], st);
      SaveOnlyInReturn(ss[0], []);
      ExecAppend(env, n, Weave(ss[0], []), WeavePlain(ss[1..]), saved, st);
      var r := Exec(env, Documented, n, ss[0], st);
      if r.Done? {
        SimPlain(env, n, ss[1..], saved, r.st);
      }
    }
  }

  /** The emitted function does what the source function does, on every state and for every loop bound. An expression
      is given with what its names denote and means that wherever it is written, so this is about bodies whose names
      are resolved; module DeferCapture tells for which bodies the names of the emitted C denote the same. */
  lemma WeavingKeepsMeaning<S, V>(env: Env<S, V>, n: nat, body: seq<Stmt>, st: S)
    requires ListOk(body)
    ensures ExecTFunction(env, n, WeaveFunction(body), st) == ExecFunction(env, Documented, n, body, st)
  {
    SimScope(env, n, body, FunctionScope, [], [], st);
  }
}
