/** Resolving the names of the emitted program and weaving the resolved source give the same program exactly
    where source and text fit. */
module DeferBinding {
  import opened Options
  import opened DeferSyntax
  import opened DeferSource
  import opened DeferTarget
  import opened DeferWeaving
  import opened DeferNames

  // ----- lists -----

  lemma SplitEqual<T>(a: seq<T>, b: seq<T>, c: seq<T>, d: seq<T>)
    requires |a| == |c|
    ensures a + b == c + d <==> a == c && b == d
  {
    if a + b == c + d {
      assert a == (a + b)[..|a|] && c == (c + d)[..|c|];
      assert b == (a + b)[|a|..] && d == (c + d)[|c|..];
    }
  }

  lemma OneC(t: Target, env: Seen)
    ensures ResolveCList([t], env) == [ResolveC(t, env)]
  {
    assert [t][1..] == [];
  }

  /** What can be seen behind the statements of a list. */
  function AfterAllC(ts: seq<Target>, env: Seen): Seen {
    if ts == [] then env else AfterAllC(ts[1..], AfterC(ts[0], env))
  }

  lemma {:induction false} AppendC(a: seq<Target>, b: seq<Target>, env: Seen)
    ensures ResolveCList(a + b, env) == ResolveCList(a, env) + ResolveCList(b, AfterAllC(a, env))
    decreases a
  {
    hide ResolveC, AfterC;
    if a == [] {
      assert a + b == b;
    } else {
      assert (a + b)[0] == a[0] && (a + b)[1..] == a[1..] + b;
      AppendC(a[1..], b, AfterC(a[0], env));
    }
  }

  predicate NothingDeclared(ts: seq<Target>) {
    forall i :: 0 <= i < |ts| && ts[i].TAct? ==> ts[i].a.declares == []
  }

  lemma {:induction false} NothingSeen(ts: seq<Target>, env: Seen)
    requires NothingDeclared(ts)
    ensures AfterAllC(ts, env) == env
  {
    if ts != [] {
      assert ts[0].TAct? ==> Decls(ts[0].a) == [];
      assert AfterC(ts[0], env) == env;
      assert forall i :: 0 <= i < |ts[1..]| ==> ts[1..][i] == ts[i + 1];
      NothingSeen(ts[1..], env);
    }
  }

  lemma {:induction false} CodesDeclareNothing(p: seq<Code>)
    ensures |WeaveCodes(p)| == |p|
    ensures CodesOk(p) ==> NothingDeclared(WeaveCodes(p))
  {
    if p != [] {
      CodesDeclareNothing(p[..|p| - 1]);
      assert CodesOk(p) ==> CodeOk(p[|p| - 1]);
    }
  }

  lemma {:induction false} AllDeclareNothing(sc: seq<Scope>)
    requires forall i :: 0 <= i < |sc| ==> CodesOk(sc[i].defers)
    ensures NothingDeclared(WeaveAll(sc)) && NothingDeclared(WeaveToLoop(sc))
  {
    hide WeaveCodes;
    if sc != [] {
      CodesDeclareNothing(Top(sc).defers);
      AllDeclareNothing(Outer(sc));
    }
  }

  // ----- the two stacks of the weaving -----

  lemma StackOuter(sc: seq<NamedScope>)
    requires sc != []
    ensures Outer(Kept(sc)) == Kept(Enclosing(sc)) && Outer(MeantScopes(sc)) == MeantScopes(Enclosing(sc))
    ensures Top(Kept(sc)) == Scope(Last(sc).kind, Codes(Last(sc).defers))
    ensures Top(MeantScopes(sc)) == Scope(Last(sc).kind, Meant(Last(sc).defers))
  {}

  lemma StackEnter(sc: seq<NamedScope>, k: Kind)
    ensures Kept(sc + [NamedScope(k, [])]) == Kept(sc) + [Scope(k, [])]
    ensures MeantScopes(sc + [NamedScope(k, [])]) == MeantScopes(sc) + [Scope(k, [])]
  {
    assert Codes([]) == [] && Meant([]) == [];
  }

  lemma StackRegister(sc: seq<NamedScope>, c: Code, env: Seen)
    requires sc != []
    ensures Kept(Remember(sc, c, env)) == Register(Kept(sc), c)
    ensures MeantScopes(Remember(sc, c, env)) == Register(MeantScopes(sc), ResolveCode(c, env))
  {
    var p := Last(sc).defers;
    assert Codes(p + [Pending(c, env)]) == Codes(p) + [c];
    assert Meant(p + [Pending(c, env)]) == Meant(p) + [ResolveCode(c, env)];
  }

  lemma PendingFront(p: seq<Pending>)
    requires p != []
    ensures Codes(p)[..|p| - 1] == Codes(p[..|p| - 1]) && Meant(p)[..|p| - 1] == Meant(p[..|p| - 1])
  {}

  lemma {:induction false} AllLengths(sc: seq<NamedScope>)
    ensures |WeaveAll(Kept(sc))| == |WeaveAll(MeantScopes(sc))|
    ensures |WeaveToLoop(Kept(sc))| == |WeaveToLoop(MeantScopes(sc))|
  {
    hide WeaveCodes;
    if sc != [] {
      StackOuter(sc);
      CodesDeclareNothing(Codes(Last(sc).defers));
      CodesDeclareNothing(Meant(Last(sc).defers));
      AllLengths(Enclosing(sc));
    }
  }

  lemma KeptOk(sc: seq<NamedScope>)
    requires ScopesOk(sc)
    ensures forall i :: 0 <= i < |sc| ==> CodesOk(Kept(sc)[i].defers)
  {
    forall i | 0 <= i < |sc| ensures CodesOk(Kept(sc)[i].defers) {
      assert PendingOk(sc[i].defers);
    }
  }

  // ----- a woven statement: how long it is, and what it declares -----

  lemma StmtLengths(s: Stmt, sc: seq<NamedScope>, src: Seen)
    ensures |Weave(s, Kept(sc))| == |Weave(Resolve(s, src), MeantScopes(sc))|
  {
    hide WeaveAll, WeaveToLoop, WeaveScope, WeaveArms, WeaveElse, ResolveList;
    AllLengths(sc);
  }

  lemma StmtDeclares(s: Stmt, sc: seq<NamedScope>, env: Seen)
    requires WellFormed(s) && ScopesOk(sc)
    ensures AfterAllC(Weave(s, Kept(sc)), env) == After(s, env)
  {
    hide WeaveAll, WeaveToLoop, WeaveScope, WeaveArms, WeaveElse, Decls;
    var ts := Weave(s, Kept(sc));
    if s.Action? {
      assert ts[1..] == [];
    } else {
      KeptOk(sc);
      AllDeclareNothing(Kept(sc));
      NothingSeen(ts, env);
    }
  }

  // ----- resolving and weaving -----

  lemma {:induction false} StmtCommutes(s: Stmt, sc: seq<NamedScope>, src: Seen, tgt: Seen)
    requires WellFormed(s) && !s.Defer? && ScopesOk(sc)
    ensures ResolveCList(Weave(s, Kept(sc)), tgt) == Weave(Resolve(s, src), MeantScopes(sc)) <==> Fits(s, sc, src, tgt)
    decreases Size(s) + ScopesSize(sc), 0, 0
  {
    hide WeaveAll, WeaveToLoop, WeaveScope, WeaveArms, WeaveElse, ResolveList, ResolveArms, ResolveCList,
      ResolveClauses, FitsScope, FitsArms, FitsAll, FitsToLoop, Bind, ResolveCode, MeantScopes, Kept, BindReturned;
    match s
    case Action(a) => OneC(TAct(a), tgt);
    case Block(body) =>
      ScopeCommutes(body, BlockScope, sc, src, tgt);
      OneC(TBlock(WeaveScope(body, BlockScope, Kept(sc))), tgt);
    case If(cond, thn, els) => IfCommutes(cond, thn, els, sc, src, tgt);
    case Match(scrutinee, arms) =>
      ArmsCommute(arms, true, sc, src, tgt);
      var m := TMatch(scrutinee, WeaveArms(arms, true, Kept(sc)));
      OneC(m, tgt);
      OneC(TBlock([m]), tgt);
    case While(cond, body) =>
      ScopeCommutes(body, LoopScope, sc, src, tgt);
      OneC(TWhile(cond, WeaveScope(body, LoopScope, Kept(sc))), tgt);
    case For(init, test, post, body) =>
      ScopeCommutes(body, LoopScope, sc, AfterInit(init, src), AfterInit(init, tgt));
      OneC(TFor(init, test, post, WeaveScope(body, LoopScope, Kept(sc))), tgt);
    case Return(what) => ReturnCommutes(what, sc, src, tgt);
    case Break =>
      ToLoopCommutes(sc, tgt);
      TailCommutes(WeaveToLoop(Kept(sc)), WeaveToLoop(MeantScopes(sc)), TBreak, TBreak, sc, tgt);
    case Continue =>
      ToLoopCommutes(sc, tgt);
      TailCommutes(WeaveToLoop(Kept(sc)), WeaveToLoop(MeantScopes(sc)), TContinue, TContinue, sc, tgt);
  }

  lemma {:induction false} IfCommutes(cond: Expr, thn: seq<Stmt>, els: Option<Stmt>, sc: seq<NamedScope>,
                                      src: Seen, tgt: Seen)
    requires WellFormed(If(cond, thn, els)) && ScopesOk(sc)
    ensures var s := If(cond, thn, els);
            ResolveCList(Weave(s, Kept(sc)), tgt) == Weave(Resolve(s, src), MeantScopes(sc)) <==> Fits(s, sc, src, tgt)
    decreases Size(If(cond, thn, els)) + ScopesSize(sc) - 1, 9, 0
  {
    hide WeaveAll, WeaveToLoop, WeaveScope, WeaveArms, ResolveList, ResolveArms, ResolveCList, ResolveClauses,
      FitsScope, FitsArms, FitsAll, FitsToLoop, Bind, ResolveCode, MeantScopes, Kept;
    ScopeCommutes(thn, BlockScope, sc, src, tgt);
    OneC(Weave(If(cond, thn, els), Kept(sc))[0], tgt);
    if els.Some? {
      StmtCommutes(els.value, sc, src, tgt);
      OneC(WeaveElse(els.value, Kept(sc)), tgt);
    }
  }

  /** Written deferred code, and the exit behind it. */
  lemma TailCommutes(a: seq<Target>, b: seq<Target>, t: Target, u: Target, sc: seq<NamedScope>, tgt: Seen)
    requires |a| == |b| && NothingDeclared(a)
    ensures ResolveCList(a + [t], tgt) == b + [u] <==> ResolveCList(a, tgt) == b && ResolveC(t, tgt) == u
  {
    hide ResolveC;
    AppendC(a, [t], tgt);
    NothingSeen(a, tgt);
    OneC(t, tgt);
    SplitEqual(ResolveCList(a, tgt), [ResolveC(t, tgt)], b, [u]);
  }

  lemma {:induction false} ReturnCommutes(what: Returned, sc: seq<NamedScope>, src: Seen, tgt: Seen)
    requires ScopesOk(sc)
    ensures var s := Return(what);
            ResolveCList(Weave(s, Kept(sc)), tgt) == Weave(Resolve(s, src), MeantScopes(sc)) <==> Fits(s, sc, src, tgt)
    decreases ScopesSize(sc), 4, 2
  {
    hide WeaveAll, ResolveCList, FitsAll, Bind, MeantScopes, Kept, BindAll;
    AllCommute(sc, tgt);
    var a, b := WeaveAll(Kept(sc)), WeaveAll(MeantScopes(sc));
    match what
    case Void => TailCommutes(a, b, TReturnVoid, TReturnVoid, sc, tgt);
    case Plain(e) => TailCommutes(a, b, TReturn(e), TReturn(Bind(e, src)), sc, tgt);
    case Call(e) =>
      SavedCommutes([e], [Bind(e, src)], sc, tgt);
      BindAllOne(e, tgt);
    case Tuple(es) => SavedCommutes(es, BindAll(es, src), sc, tgt);
  }

  lemma BindAllOne(e: Expr, env: Seen)
    ensures BindAll([e], env) == [Bind(e, env)]
  {}

  lemma {:induction false} SavedCommutes(es: seq<Expr>, bound: seq<Expr>, sc: seq<NamedScope>, tgt: Seen)
    requires ScopesOk(sc)
    ensures ResolveCList([TSave(es)] + WeaveAll(Kept(sc)) + [TReturnSaved], tgt)
            == [TSave(bound)] + WeaveAll(MeantScopes(sc)) + [TReturnSaved]
            <==> BindAll(es, tgt) == bound && FitsAll(sc, tgt)
    decreases ScopesSize(sc), 4, 1
  {
    hide WeaveAll, ResolveCList, FitsAll, Bind, MeantScopes, Kept, BindAll;
    AllCommute(sc, tgt);
    var a, b := WeaveAll(Kept(sc)), WeaveAll(MeantScopes(sc));
    var save, rest := [TSave(es)], a + [TReturnSaved];
    assert save + a + [TReturnSaved] == save + rest;
    assert [TSave(bound)] + b + [TReturnSaved] == [TSave(bound)] + (b + [TReturnSaved]);
    AppendC(save, rest, tgt);
    NothingSeen(save, tgt);
    OneC(TSave(es), tgt);
    SplitEqual([TSave(BindAll(es, tgt))], ResolveCList(rest, tgt), [TSave(bound)], b + [TReturnSaved]);
    TailCommutes(a, b, TReturnSaved, TReturnSaved, sc, tgt);
  }

  lemma {:induction false} ScopeCommutes(body: seq<Stmt>, k: Kind, sc: seq<NamedScope>, src: Seen, tgt: Seen)
    requires ListOk(body) && ScopesOk(sc)
    ensures ResolveCList(WeaveScope(body, k, Kept(sc)), tgt) == WeaveScope(ResolveList(body, src), k, MeantScopes(sc))
            <==> FitsScope(body, k, sc, src, tgt)
    decreases ListSize(body) + ScopesSize(sc), 6, 0
  {
    hide WeaveList, ResolveList, ResolveCList, FitsList;
    EnterNamed(sc, NamedScope(k, []));
    StackEnter(sc, k);
    ListCommutes(body, sc + [NamedScope(k, [])], src, tgt);
  }

  lemma {:induction false} ListCommutes(ss: seq<Stmt>, sc: seq<NamedScope>, src: Seen, tgt: Seen)
    requires ListOk(ss) && sc != [] && ScopesOk(sc)
    ensures ResolveCList(WeaveList(ss, Kept(sc)), tgt) == WeaveList(ResolveList(ss, src), MeantScopes(sc))
            <==> FitsList(ss, sc, src, tgt)
    decreases ListSize(ss) + ScopesSize(sc), 5, 0
  {
    hide Weave, WeaveCodes, Fits, FitsCodes, ResolveCList, Resolve, MeantScopes, Kept, ScopesSize, Register, Remember,
      AfterC;
    if ss == [] {
      StackOuter(sc);
      assert PendingOk(Last(sc).defers);
      LastSize(sc);
      CodesCommute(Last(sc).defers, tgt);
    } else if ss[0].Defer? {
      RememberSize(sc, ss[0].code, src);
      assert Size(ss[0]) == 1 + CodeSize(ss[0].code);
      DeferCommutes(ss, sc, src);
      ListCommutes(ss[1..], Remember(sc, ss[0].code, src), src, tgt);
    } else {
      HeadCommutes(ss, sc, src, tgt);
      StmtCommutes(ss[0], sc, src, tgt);
      ListCommutes(ss[1..], sc, After(ss[0], src), After(ss[0], tgt));
    }
  }

  /** A `defer` registers its code in both stacks. */
  lemma DeferCommutes(ss: seq<Stmt>, sc: seq<NamedScope>, src: Seen)
    requires ss != [] && ss[0].Defer? && ListOk(ss) && sc != [] && ScopesOk(sc)
    ensures ScopesOk(Remember(sc, ss[0].code, src)) && Remember(sc, ss[0].code, src) != []
    ensures WeaveList(ss, Kept(sc)) == WeaveList(ss[1..], Kept(Remember(sc, ss[0].code, src)))
    ensures WeaveList(ResolveList(ss, src), MeantScopes(sc))
            == WeaveList(ResolveList(ss[1..], src), MeantScopes(Remember(sc, ss[0].code, src)))
  {
    hide Weave, WeaveCodes, ResolveCode, Kept, MeantScopes, Register;
    StackRegister(sc, ss[0].code, src);
    var rs := ResolveList(ss, src);
    assert rs[0] == Defer(ResolveCode(ss[0].code, src)) && rs[1..] == ResolveList(ss[1..], src);
    assert CodeOk(ss[0].code);
    var p := Last(sc).defers;
    assert PendingOk(p) && PendingOk(p + [Pending(ss[0].code, src)]);
  }

  /** Any other statement is written in front of the rest. */
  lemma HeadCommutes(ss: seq<Stmt>, sc: seq<NamedScope>, src: Seen, tgt: Seen)
    requires ss != [] && !ss[0].Defer? && ListOk(ss) && sc != [] && ScopesOk(sc)
    ensures var s := ss[0];
            ResolveCList(WeaveList(ss, Kept(sc)), tgt) == WeaveList(ResolveList(ss, src), MeantScopes(sc)) <==>
            && ResolveCList(Weave(s, Kept(sc)), tgt) == Weave(Resolve(s, src), MeantScopes(sc))
            && ResolveCList(WeaveList(ss[1..], Kept(sc)), After(s, tgt))
               == WeaveList(ResolveList(ss[1..], After(s, src)), MeantScopes(sc))
  {
    hide Weave, WeaveCodes, ResolveCList, Kept, MeantScopes, AfterC;
    var s := ss[0];
    var a, b := Weave(s, Kept(sc)), WeaveList(ss[1..], Kept(sc));
    var rs := ResolveList(ss, src);
    assert rs[0] == Resolve(s, src) && rs[1..] == ResolveList(ss[1..], After(s, src)) && !rs[0].Defer?;
    AppendC(a, b, tgt);
    StmtDeclares(s, sc, tgt);
    StmtLengths(s, sc, src);
    SplitEqual(ResolveCList(a, tgt), ResolveCList(b, After(s, tgt)), Weave(rs[0], MeantScopes(sc)),
               WeaveList(rs[1..], MeantScopes(sc)));
  }

  lemma {:induction false} ArmsCommute(arms: Arms, first: bool, sc: seq<NamedScope>, src: Seen, tgt: Seen)
    requires ArmsOk(arms) && ScopesOk(sc)
    ensures ResolveClauses(WeaveArms(arms, first, Kept(sc)), tgt) == WeaveArms(ResolveArms(arms, src), first, MeantScopes(sc))
            <==> FitsArms(arms, sc, src, tgt)
    decreases ArmsSize(arms) + ScopesSize(sc), 2, 0
  {
    hide WeaveArm, Resolve, Fits, ResolveCList, Bind, Kept, MeantScopes;
    if arms.Arm? {
      ArmCommutes(arms.body, sc, src, tgt);
      ArmsCommute(arms.rest, first, sc, src, tgt);
      ArmsCommute(arms.rest, false, sc, src, tgt);
    }
  }

  lemma {:induction false} ArmCommutes(s: Stmt, sc: seq<NamedScope>, src: Seen, tgt: Seen)
    requires WellFormed(s) && ArmBody(s) && ScopesOk(sc)
    ensures ResolveCList(WeaveArm(s, Kept(sc)), tgt) == WeaveArm(Resolve(s, src), MeantScopes(sc)) <==> Fits(s, sc, src, tgt)
    decreases Size(s) + ScopesSize(sc), 1, 0
  {
    hide Weave, WeaveScope, ResolveList, ResolveCList, Kept, MeantScopes, FitsScope;
    if s.Block? {
      ScopeCommutes(s.body, BlockScope, sc, src, tgt);
    } else {
      StmtCommutes(s, sc, src, tgt);
    }
  }

  lemma {:induction false} AllCommute(sc: seq<NamedScope>, tgt: Seen)
    requires ScopesOk(sc)
    ensures ResolveCList(WeaveAll(Kept(sc)), tgt) == WeaveAll(MeantScopes(sc)) <==> FitsAll(sc, tgt)
    ensures |WeaveAll(Kept(sc))| == |WeaveAll(MeantScopes(sc))| && NothingDeclared(WeaveAll(Kept(sc)))
    decreases ScopesSize(sc), 3, |sc|
  {
    hide WeaveCodes, FitsCodes, ResolveCList, Kept, MeantScopes;
    AllLengths(sc);
    KeptOk(sc);
    AllDeclareNothing(Kept(sc));
    if sc != [] {
      TopCommutes(sc, WeaveAll(Kept(Enclosing(sc))), WeaveAll(MeantScopes(Enclosing(sc))), tgt);
      AllCommute(Enclosing(sc), tgt);
      StackOuter(sc);
    }
  }

  lemma {:induction false} ToLoopCommutes(sc: seq<NamedScope>, tgt: Seen)
    requires ScopesOk(sc)
    ensures ResolveCList(WeaveToLoop(Kept(sc)), tgt) == WeaveToLoop(MeantScopes(sc)) <==> FitsToLoop(sc, tgt)
    ensures |WeaveToLoop(Kept(sc))| == |WeaveToLoop(MeantScopes(sc))| && NothingDeclared(WeaveToLoop(Kept(sc)))
    decreases ScopesSize(sc), 3, |sc|
  {
    hide WeaveCodes, FitsCodes, ResolveCList, Kept, MeantScopes;
    AllLengths(sc);
    KeptOk(sc);
    AllDeclareNothing(Kept(sc));
    if sc != [] {
      TopCommutes(sc, WeaveToLoop(Kept(Enclosing(sc))), WeaveToLoop(MeantScopes(Enclosing(sc))), tgt);
      ToLoopCommutes(Enclosing(sc), tgt);
      StackOuter(sc);
    }
  }

  /** The code of the innermost scope, in front of the code of other scopes. */
  lemma {:induction false} TopCommutes(sc: seq<NamedScope>, a: seq<Target>, b: seq<Target>, tgt: Seen)
    requires ScopesOk(sc) && sc != []
    ensures ResolveCList(WeaveCodes(Codes(Last(sc).defers)) + a, tgt) == WeaveCodes(Meant(Last(sc).defers)) + b
            <==> FitsCodes(Last(sc).defers, tgt) && ResolveCList(a, tgt) == b
    decreases ScopesSize(sc), 2, |sc|
  {
    hide WeaveCodes, FitsCodes, ResolveCList, Codes, Meant;
    var p := Last(sc).defers;
    assert PendingOk(p);
    CodesCommute(p, tgt);
    CodesDeclareNothing(Codes(p));
    CodesDeclareNothing(Meant(p));
    AppendC(WeaveCodes(Codes(p)), a, tgt);
    NothingSeen(WeaveCodes(Codes(p)), tgt);
    SplitEqual(ResolveCList(WeaveCodes(Codes(p)), tgt), ResolveCList(a, tgt), WeaveCodes(Meant(p)), b);
  }

  lemma {:induction false} CodesCommute(p: seq<Pending>, tgt: Seen)
    requires PendingOk(p)
    ensures CodesOk(Codes(p))
    ensures ResolveCList(WeaveCodes(Codes(p)), tgt) == WeaveCodes(Meant(p)) <==> FitsCodes(p, tgt)
    decreases PendingSize(p), 2, 0
  {
    hide WeaveCode, FitsCode, ResolveCList, ResolveCode;
    if p != [] {
      var q := p[..|p| - 1];
      var c, at := p[|p| - 1].code, p[|p| - 1].at;
      PendingFront(p);
      CodeCommutes(c, at, tgt);
      CodesCommute(q, tgt);
      AppendC(WeaveCode(c), WeaveCodes(Codes(q)), tgt);
      NothingSeen(WeaveCode(c), tgt);
      SplitEqual(ResolveCList(WeaveCode(c), tgt), ResolveCList(WeaveCodes(Codes(q)), tgt),
                 WeaveCode(ResolveCode(c, at)), WeaveCodes(Meant(q)));
    }
  }

  /** One written copy of deferred code. */
  lemma {:induction false} CodeCommutes(c: Code, at: Seen, tgt: Seen)
    requires CodeOk(c)
    ensures ResolveCList(WeaveCode(c), tgt) == WeaveCode(ResolveCode(c, at)) <==> FitsCode(c, at, tgt)
    ensures |WeaveCode(c)| == |WeaveCode(ResolveCode(c, at))| == 1 && NothingDeclared(WeaveCode(c))
    decreases CodeSize(c), 1, 0
  {
    hide WeavePlain, FitsPlain, ResolveCList, ResolveList, Bind;
    match c
    case Single(a) => OneC(TAct(a), tgt);
    case Braced(stmts) =>
      PlainCommutes(stmts, at, tgt);
      OneC(TBlock(WeavePlain(stmts)), tgt);
  }

  lemma {:induction false} PlainCommutes(ss: seq<Stmt>, src: Seen, tgt: Seen)
    requires ListOk(ss) && !DirectDefer(ss)
    ensures ResolveCList(WeavePlain(ss), tgt) == WeavePlain(ResolveList(ss, src)) <==> FitsPlain(ss, src, tgt)
    decreases ListSize(ss), 5, 0
  {
    hide Weave, Fits, ResolveCList, Resolve, AfterC;
    if ss != [] {
      var s := ss[0];
      assert !s.Defer?;
      assert forall i :: 0 <= i < |ss[1..]| ==> ss[1..][i] == ss[i + 1];
      var none: seq<NamedScope> := [];
      assert Kept(none) == [] && MeantScopes(none) == [];
      StmtCommutes(s, none, src, tgt);
      PlainCommutes(ss[1..], After(s, src), After(s, tgt));
      AppendC(Weave(s, []), WeavePlain(ss[1..]), tgt);
      StmtDeclares(s, none, tgt);
      StmtLengths(s, none, src);
      var rs := ResolveList(ss, src);
      assert rs[0] == Resolve(s, src) && rs[1..] == ResolveList(ss[1..], After(s, src));
      SplitEqual(ResolveCList(Weave(s, []), tgt), ResolveCList(WeavePlain(ss[1..]), After(s, tgt)),
                 Weave(rs[0], []), WeavePlain(rs[1..]));
    }
  }
}
