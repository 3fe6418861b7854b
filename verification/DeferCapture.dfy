/** Name capture: deferred code is written again in inner scopes, where a declaration may stand between a name and
    what it denoted at the `defer`. The pieces that are written are listed, and the emitted C denotes what the source
    does exactly when every piece keeps its names. */
module DeferCapture {
  import opened Options
  import opened DeferSyntax
  import opened DeferSource
  import opened DeferTarget
  import opened DeferWeaving
  import opened DeferProof
  import opened DeferEmitter
  import opened DeferReading
  import opened DeferNames
  import opened DeferBinding
  import opened DeferFree
  import opened DeferCopies

  /** What is written into the text besides plain uses of names: a copy of deferred code that was deferred where `at`
      could be seen and is written where `place` can be seen, or a declaration. */
  datatype Piece = Copy(code: Code, at: Seen, place: Seen) | Declared(e: Expr)

  /** What has been declared behind the `defer`, in its own scope and in the scopes open at the copy. */
  function Since(at: Seen, place: Seen): Seen {
    if |at| <= |place| then place[|at|..] else []
  }

  predicate Keeps(p: Piece) {
    match p
    case Copy(code, at, place) => FreeCode(code) !! Names(Since(at, place))
    case Declared(e) => e.own ==> e.uses !! DeclaredBy(e)
  }

  predicate AllKeep(ps: set<Piece>) {
    forall p :: p in ps ==> Keeps(p)
  }

  // ----- everything that is written -----

  function Pieces(s: Stmt, sc: seq<NamedScope>, env: Seen): set<Piece>
    decreases Size(s) + ScopesSize(sc), 0, 0
  {
    match s
    case Action(a) => {Declared(a)}
    case Defer(_) => {}
    case Block(body) => ScopePieces(body, BlockScope, sc, env)
    case If(_, thn, els) => ScopePieces(thn, BlockScope, sc, env) + if els.Some? then Pieces(els.value, sc, env) else {}
    case Match(_, arms) => ArmPieces(arms, sc, env)
    case While(_, body) => ScopePieces(body, LoopScope, sc, env)
    case For(init, _, _, body) => InitPieces(init) + ScopePieces(body, LoopScope, sc, AfterInit(init, env))
    case Return(_) => AllPieces(sc, env)
    case Break => ToLoopPieces(sc, env)
    case Continue => ToLoopPieces(sc, env)
  }

  function InitPieces(init: Option<Expr>): set<Piece> {
    if init.Some? then {Declared(init.value)} else {}
  }

  function ScopePieces(body: seq<Stmt>, k: Kind, sc: seq<NamedScope>, env: Seen): set<Piece>
    decreases ListSize(body) + ScopesSize(sc), 6, 0
  {
    EnterNamed(sc, NamedScope(k, []));
    ListPieces(body, sc + [NamedScope(k, [])], env)
  }

  function ListPieces(ss: seq<Stmt>, sc: seq<NamedScope>, env: Seen): set<Piece>
    requires sc != []
    decreases ListSize(ss) + ScopesSize(sc), 5, 0
  {
    if ss == [] then CodePieces(Last(sc).defers, env)
    else if ss[0].Defer? then
      RememberSize(sc, ss[0].code, env);
      assert Size(ss[0]) == 1 + CodeSize(ss[0].code);
      ListPieces(ss[1..], Remember(sc, ss[0].code, env), env)
    else Pieces(ss[0], sc, env) + ListPieces(ss[1..], sc, After(ss[0], env))
  }

  function ArmPieces(arms: Arms, sc: seq<NamedScope>, env: Seen): set<Piece>
    decreases ArmsSize(arms) + ScopesSize(sc), 2, 0
  {
    if arms.NoArms? then {} else Pieces(arms.body, sc, env) + ArmPieces(arms.rest, sc, env)
  }

  function AllPieces(sc: seq<NamedScope>, env: Seen): set<Piece>
    decreases ScopesSize(sc), 3, |sc|
  {
    if sc == [] then {} else CodePieces(Last(sc).defers, env) + AllPieces(Enclosing(sc), env)
  }

  function ToLoopPieces(sc: seq<NamedScope>, env: Seen): set<Piece>
    decreases ScopesSize(sc), 3, |sc|
  {
    if sc == [] || Last(sc).kind.LoopScope? then {}
    else CodePieces(Last(sc).defers, env) + ToLoopPieces(Enclosing(sc), env)
  }

  /** Each copy, and what is written inside it. */
  function CodePieces(ps: seq<Pending>, env: Seen): set<Piece>
    decreases PendingSize(ps), 2, 0
  {
    if ps == [] then {}
    else
      var p := ps[|ps| - 1];
      {Copy(p.code, p.at, env)} + InnerPieces(p.code, p.at) + CodePieces(ps[..|ps| - 1], env)
  }

  function InnerPieces(c: Code, at: Seen): set<Piece>
    decreases CodeSize(c), 1, 0
  {
    if c.Single? then {} else PlainPieces(c.stmts, at)
  }

  function PlainPieces(ss: seq<Stmt>, env: Seen): set<Piece>
    decreases ListSize(ss), 5, 0
  {
    if ss == [] then {} else Pieces(ss[0], [], env) + PlainPieces(ss[1..], After(ss[0], env))
  }

  function FunctionPieces(body: seq<Stmt>, params: Seen): set<Piece> {
    ScopePieces(body, FunctionScope, [], params)
  }

  // ----- one piece -----

  /** A copy stands behind its `defer`, and what was declared since is new. */
  predicate Placed(p: Piece) {
    p.Copy? ==> Waits(Pending(p.code, p.at), p.place)
  }

  predicate AllPlaced(ps: set<Piece>) {
    forall p :: p in ps ==> Placed(p)
  }

  lemma NothingKeeps()
    ensures AllKeep({}) && AllPlaced({})
  {}

  lemma UnionKeeps(ps: set<Piece>, qs: set<Piece>)
    ensures AllKeep(ps + qs) <==> AllKeep(ps) && AllKeep(qs)
    ensures AllPlaced(ps + qs) <==> AllPlaced(ps) && AllPlaced(qs)
  {
    hide Keeps, Placed;
    assert forall p :: p in ps + qs <==> p in ps || p in qs;
  }

  lemma OneKeeps(p: Piece)
    ensures AllKeep({p}) <==> Keeps(p)
    ensures AllPlaced({p}) <==> Placed(p)
  {
    hide Keeps, Placed;
    assert p in {p};
  }

  /** An initialiser behind its own declarator denotes the same exactly when it does not name what it declares. */
  lemma DeclarationKeeps(e: Expr, env: Seen)
    requires NewExpr(e, env)
    ensures Bind(e, env) == BindC(e, env) <==> Keeps(Declared(e))
    ensures AllPlaced({Declared(e)})
    ensures AllKeep({Declared(e)}) <==> Keeps(Declared(e))
  {
    hide Bind, Alike, Decls, Names, Ids, DeclaredBy;
    OneKeeps(Declared(e));
    if e.own {
      DeclsOf(e);
      BindAlike(e, env, env + Decls(e));
      AlikeFurther(env, Decls(e), e.uses);
    }
  }

  /** One written copy: every name of the code denotes there what it denoted at the `defer` exactly when no free name
      of the code has been declared since. */
  lemma CopyKeeps(c: Code, at: Seen, place: Seen)
    requires Waits(Pending(c, at), place)
    ensures ResolveCode(c, at) == ResolveCode(c, place) <==> Keeps(Copy(c, at, place))
    ensures Alike(at, place, FreeCode(c)) <==> Keeps(Copy(c, at, place))
  {
    hide ResolveCode, Alike, FreeCode, Names, Ids, CodeOk, NewCode;
    CodeAlike(c, at, place);
    assert place == at + Since(at, place);
    AlikeFurther(at, Since(at, place), FreeCode(c));
  }

  // ----- source and text agree exactly when every piece keeps its names -----

  predicate ScopesWait(sc: seq<NamedScope>, env: Seen) {
    forall i :: 0 <= i < |sc| ==> AllWait(sc[i].defers, env)
  }

  lemma ScopesWaitFurther(sc: seq<NamedScope>, env: Seen, more: Seen)
    requires ScopesWait(sc, env) && Ids(more) !! Ids(env)
    ensures ScopesWait(sc, env + more)
  {
    hide AllWait, Ids;
    forall i | 0 <= i < |sc| ensures AllWait(sc[i].defers, env + more) {
      AllWaitFurther(sc[i].defers, env, more);
    }
  }

  lemma {:induction false} StmtKeeps(s: Stmt, sc: seq<NamedScope>, env: Seen)
    requires WellFormed(s) && New(s, env) && ScopesWait(sc, env)
    ensures Fits(s, sc, env, env) <==> AllKeep(Pieces(s, sc, env))
    ensures AllPlaced(Pieces(s, sc, env))
    decreases Size(s) + ScopesSize(sc), 0, 0
  {
    hide Bind, BindC, FitsScope, ScopePieces, FitsArms, ArmPieces, FitsAll, AllPieces, FitsToLoop, ToLoopPieces,
      Keeps, Placed, ListOk, ArmsOk, CodeOk, NewList, NewArms, NewCode, NewExpr, ScopesWait, Ids, AllKeep, AllPlaced,
      InitPieces, AfterInit;
    match s
    case Action(a) => DeclarationKeeps(a, env);
    case Defer(_) => NothingKeeps();
    case Block(body) => ScopeKeeps(body, BlockScope, sc, env);
    case If(cond, thn, els) =>
      ScopeKeeps(thn, BlockScope, sc, env);
      if els.Some? {
        StmtKeeps(els.value, sc, env);
        UnionKeeps(ScopePieces(thn, BlockScope, sc, env), Pieces(els.value, sc, env));
      } else {
        assert ScopePieces(thn, BlockScope, sc, env) + {} == ScopePieces(thn, BlockScope, sc, env);
      }
    case Match(scrutinee, arms) => ArmsKeep(arms, sc, env);
    case While(cond, body) => ScopeKeeps(body, LoopScope, sc, env);
    case For(init, test, post, body) =>
      InitKeeps(init, sc, env);
      ScopeKeeps(body, LoopScope, sc, AfterInit(init, env));
      UnionKeeps(InitPieces(init), ScopePieces(body, LoopScope, sc, AfterInit(init, env)));
    case Return(what) => AllScopesKeep(sc, env);
    case Break => ToLoopKeeps(sc, env);
    case Continue => ToLoopKeeps(sc, env);
  }

  lemma InitKeeps(init: Option<Expr>, sc: seq<NamedScope>, env: Seen)
    requires init.Some? ==> NewExpr(init.value, env)
    requires ScopesWait(sc, env)
    ensures BindOpt(init, env) == BindOptC(init, env) <==> AllKeep(InitPieces(init))
    ensures AllPlaced(InitPieces(init)) && ScopesWait(sc, AfterInit(init, env))
  {
    hide Bind, BindC, Keeps, ScopesWait, Ids, Decls;
    if init.Some? {
      DeclarationKeeps(init.value, env);
      DeclsOf(init.value);
      ScopesWaitFurther(sc, env, Decls(init.value));
    }
  }

  lemma {:induction false} ScopeKeeps(body: seq<Stmt>, k: Kind, sc: seq<NamedScope>, env: Seen)
    requires ListOk(body) && NewList(body, env) && ScopesWait(sc, env)
    ensures FitsScope(body, k, sc, env, env) <==> AllKeep(ScopePieces(body, k, sc, env))
    ensures AllPlaced(ScopePieces(body, k, sc, env))
    decreases ListSize(body) + ScopesSize(sc), 6, 0
  {
    hide FitsList, ListPieces, ListOk, NewList, AllKeep, AllPlaced, Waits;
    EnterNamed(sc, NamedScope(k, []));
    assert ScopesWait(sc + [NamedScope(k, [])], env);
    ListKeeps(body, sc + [NamedScope(k, [])], env);
  }

  lemma {:induction false} ListKeeps(ss: seq<Stmt>, sc: seq<NamedScope>, env: Seen)
    requires ListOk(ss) && NewList(ss, env) && sc != [] && ScopesWait(sc, env)
    ensures FitsList(ss, sc, env, env) <==> AllKeep(ListPieces(ss, sc, env))
    ensures AllPlaced(ListPieces(ss, sc, env))
    decreases ListSize(ss) + ScopesSize(sc), 5, 0
  {
    hide Fits, Pieces, FitsCodes, CodePieces, AllKeep, AllPlaced, Ids, After, ScopesSize, Remember, AllWait, CodeOk,
      NewCode;
    if ss == [] {
      LastSize(sc);
      CodesKeep(Last(sc).defers, env);
    } else if ss[0].Defer? {
      var c := ss[0].code;
      RememberSize(sc, c, env);
      assert Size(ss[0]) == 1 + CodeSize(c);
      NothingDeferred(ss[0], env);
      DeferWaits(sc, c, env);
      ListKeeps(ss[1..], Remember(sc, c, env), env);
    } else {
      var s := ss[0];
      StmtKeeps(s, sc, env);
      StillWait(s, sc, env);
      ListKeeps(ss[1..], sc, After(s, env));
      UnionKeeps(Pieces(s, sc, env), ListPieces(ss[1..], sc, After(s, env)));
    }
  }

  lemma NothingDeferred(s: Stmt, env: Seen)
    requires s.Defer?
    ensures After(s, env) == env
  {}

  lemma StillWait(s: Stmt, sc: seq<NamedScope>, env: Seen)
    requires !s.Defer? && New(s, env) && ScopesWait(sc, env)
    ensures ScopesWait(sc, After(s, env))
  {
    hide ScopesWait, Ids;
    var none: Seen := [];
    assert none + env == env && env + none == env;
    AfterBehind(s, none, env);
    var more :| After(s, env) == env + more && Ids(more) !! Ids(none + env);
    ScopesWaitFurther(sc, env, more);
  }

  lemma DeferWaits(sc: seq<NamedScope>, c: Code, env: Seen)
    requires sc != [] && ScopesWait(sc, env) && CodeOk(c) && NewCode(c, env)
    ensures ScopesWait(Remember(sc, c, env), env)
  {
    hide Waits;
    var none: Seen := [];
    assert none + env == env;
    var ps := Last(sc).defers;
    assert Behind(ps, none);
    WaitsHere(ps, c, none, env);
  }

  lemma {:induction false} ArmsKeep(arms: Arms, sc: seq<NamedScope>, env: Seen)
    requires ArmsOk(arms) && NewArms(arms, env) && ScopesWait(sc, env)
    ensures FitsArms(arms, sc, env, env) <==> AllKeep(ArmPieces(arms, sc, env))
    ensures AllPlaced(ArmPieces(arms, sc, env))
    decreases ArmsSize(arms) + ScopesSize(sc), 2, 0
  {
    hide Fits, Pieces, AllKeep, AllPlaced, ScopesWait, WellFormed, New;
    if arms.Arm? {
      StmtKeeps(arms.body, sc, env);
      ArmsKeep(arms.rest, sc, env);
      UnionKeeps(Pieces(arms.body, sc, env), ArmPieces(arms.rest, sc, env));
    } else {
      NothingKeeps();
    }
  }

  lemma {:induction false} AllScopesKeep(sc: seq<NamedScope>, env: Seen)
    requires ScopesWait(sc, env)
    ensures FitsAll(sc, env) <==> AllKeep(AllPieces(sc, env))
    ensures AllPlaced(AllPieces(sc, env))
    decreases ScopesSize(sc), 3, |sc|
  {
    hide FitsCodes, CodePieces, AllKeep, AllPlaced, AllWait;
    if sc != [] {
      LastSize(sc);
      CodesKeep(Last(sc).defers, env);
      AllScopesKeep(Enclosing(sc), env);
      UnionKeeps(CodePieces(Last(sc).defers, env), AllPieces(Enclosing(sc), env));
    } else {
      NothingKeeps();
    }
  }

  lemma {:induction false} ToLoopKeeps(sc: seq<NamedScope>, env: Seen)
    requires ScopesWait(sc, env)
    ensures FitsToLoop(sc, env) <==> AllKeep(ToLoopPieces(sc, env))
    ensures AllPlaced(ToLoopPieces(sc, env))
    decreases ScopesSize(sc), 3, |sc|
  {
    hide FitsCodes, CodePieces, AllKeep, AllPlaced, AllWait;
    if sc != [] && !Last(sc).kind.LoopScope? {
      LastSize(sc);
      CodesKeep(Last(sc).defers, env);
      ToLoopKeeps(Enclosing(sc), env);
      UnionKeeps(CodePieces(Last(sc).defers, env), ToLoopPieces(Enclosing(sc), env));
    } else {
      NothingKeeps();
    }
  }

  lemma {:induction false} CodesKeep(ps: seq<Pending>, env: Seen)
    requires AllWait(ps, env)
    ensures FitsCodes(ps, env) <==> AllKeep(CodePieces(ps, env))
    ensures AllPlaced(CodePieces(ps, env))
    decreases PendingSize(ps), 2, 0
  {
    hide FitsCode, InnerPieces, Keeps, AllKeep, AllPlaced, CodeOk, NewCode, Alike, FreeCode, Ids;
    if ps != [] {
      var p, q := ps[|ps| - 1], ps[..|ps| - 1];
      assert Waits(p, env);
      CodeSplits(p.code, p.at, env);
      CopyKeeps(p.code, p.at, env);
      InnerKeeps(p.code, p.at);
      CodesKeep(q, env);
      var copy := Copy(p.code, p.at, env);
      OneKeeps(copy);
      UnionKeeps({copy}, InnerPieces(p.code, p.at));
      UnionKeeps({copy} + InnerPieces(p.code, p.at), CodePieces(q, env));
    } else {
      NothingKeeps();
    }
  }

  /** What is written inside a copy, as if it stood at its `defer`. */
  lemma {:induction false} InnerKeeps(c: Code, at: Seen)
    requires CodeOk(c) && NewCode(c, at)
    ensures FitsCode(c, at, at) <==> AllKeep(InnerPieces(c, at))
    ensures AllPlaced(InnerPieces(c, at))
    decreases CodeSize(c), 1, 0
  {
    hide FitsPlain, PlainPieces, ListOk, NewList;
    match c
    case Single(e) =>
      assert Decls(e) == [];
      assert at + Decls(e) == at;
    case Braced(stmts) => PlainKeeps(stmts, at);
  }

  lemma {:induction false} PlainKeeps(ss: seq<Stmt>, env: Seen)
    requires ListOk(ss) && !DirectDefer(ss) && NewList(ss, env)
    ensures FitsPlain(ss, env, env) <==> AllKeep(PlainPieces(ss, env))
    ensures AllPlaced(PlainPieces(ss, env))
    decreases ListSize(ss), 5, 0
  {
    hide Fits, Pieces, AllKeep, AllPlaced, WellFormed, New, After;
    if ss == [] {
      NothingKeeps();
    } else {
      var s := ss[0];
      assert !s.Defer?;
      assert forall i :: 0 <= i < |ss[1..]| ==> ss[1..][i] == ss[i + 1];
      StmtKeeps(s, [], env);
      PlainKeeps(ss[1..], After(s, env));
      UnionKeeps(Pieces(s, [], env), PlainPieces(ss[1..], After(s, env)));
    }
  }

  // ----- the whole function -----

  /** Every written copy of every deferred code: each name in it denotes in the place of the copy what it denoted at
      the `defer` exactly when no free name of the code has been declared since, in the scope of the `defer` or in a
      scope open at the copy. In C the copy means what the code meant at the `defer` exactly when this holds of it and
      of what is written inside it. */
  lemma EveryCopyExactly(body: seq<Stmt>, params: Seen, p: Piece)
    requires ListOk(body) && NewList(body, params)
    requires p in FunctionPieces(body, params) && p.Copy?
    ensures p.at <= p.place
    ensures ResolveCode(p.code, p.at) == ResolveCode(p.code, p.place) <==> FreeCode(p.code) !! Names(p.place[|p.at|..])
    ensures ResolveCList(WeaveCode(p.code), p.place) == WeaveCode(ResolveCode(p.code, p.at))
            <==> FreeCode(p.code) !! Names(p.place[|p.at|..]) && AllKeep(InnerPieces(p.code, p.at))
  {
    hide ScopePieces, InnerPieces, FitsScope, FitsCode, WeaveCode, ResolveCode, ResolveCList, FreeCode, Names, Ids,
      CodeOk, NewCode, ListOk, NewList, AllKeep, Alike;
    assert ScopesWait([], params);
    ScopeKeeps(body, FunctionScope, [], params);
    assert Placed(p);
    CopyKeeps(p.code, p.at, p.place);
    CodeCommutes(p.code, p.at, p.place);
    CodeSplits(p.code, p.at, p.place);
    InnerKeeps(p.code, p.at);
  }

  /** For every body: the names of the emitted C denote what those of the source do, each copy of deferred code what it
      did at its `defer`, exactly when every piece that is written keeps its names. */
  lemma NamesAreKeptExactly(body: seq<Stmt>, params: Seen)
    requires ListOk(body) && NewList(body, params)
    ensures ResolveCList(WeaveFunction(body), params) == WeaveFunction(ResolveList(body, params))
            <==> AllKeep(FunctionPieces(body, params))
  {
    hide ScopePieces, FitsScope, WeaveScope, ResolveList, ResolveCList, ListOk, NewList, AllKeep;
    var none: seq<NamedScope> := [];
    assert Kept(none) == [] && MeantScopes(none) == [];
    ScopeCommutes(body, FunctionScope, none, params, params);
    ScopeKeeps(body, FunctionScope, none, params);
  }

  // ----- resolving names keeps the shape of a body -----

  lemma {:induction false} ResolvedFlow(s: Stmt, env: Seen)
    ensures HasControlFlow(Resolve(s, env)) == HasControlFlow(s)
    decreases s, 1
  {
    hide Bind, BindOpt, BindReturned, After, AfterInit;
    match s
    case Defer(code) => ResolvedCodeFlow(code, env);
    case Block(body) => ResolvedListFlow(body, env);
    case If(_, thn, els) =>
      ResolvedListFlow(thn, env);
      if els.Some? {
        ResolvedFlow(els.value, env);
      }
    case Match(_, arms) => ResolvedArmsFlow(arms, env);
    case While(_, body) => ResolvedListFlow(body, env);
    case For(init, _, _, body) => ResolvedListFlow(body, AfterInit(init, env));
    case _ =>
  }

  lemma {:induction false} ResolvedListFlow(ss: seq<Stmt>, env: Seen)
    ensures ListHasControlFlow(ResolveList(ss, env)) == ListHasControlFlow(ss)
    decreases ss, 0
  {
    hide Resolve, HasControlFlow, After;
    if ss != [] {
      ResolvedFlow(ss[0], env);
      ResolvedListFlow(ss[1..], After(ss[0], env));
      assert ResolveList(ss, env)[1..] == ResolveList(ss[1..], After(ss[0], env));
    }
  }

  lemma {:induction false} ResolvedArmsFlow(arms: Arms, env: Seen)
    ensures ArmsHaveControlFlow(ResolveArms(arms, env)) == ArmsHaveControlFlow(arms)
    decreases arms, 0
  {
    hide Resolve, HasControlFlow, BindOpt;
    if arms.Arm? {
      ResolvedFlow(arms.body, env);
      ResolvedArmsFlow(arms.rest, env);
    }
  }

  lemma {:induction false} ResolvedCodeFlow(c: Code, env: Seen)
    ensures CodeHasControlFlow(ResolveCode(c, env)) == CodeHasControlFlow(c)
    decreases c, 0
  {
    hide ListHasControlFlow;
    if c.Braced? {
      ResolvedListFlow(c.stmts, env);
    }
  }

  lemma {:induction false} ResolvedOrder(arms: Arms, env: Seen)
    ensures ArmsInOrder(ResolveArms(arms, env)) == ArmsInOrder(arms)
    ensures WildcardLast(ResolveArms(arms, env)) == WildcardLast(arms)
    decreases arms
  {
    hide Resolve, Bind;
    if arms.Arm? {
      ResolvedOrder(arms.rest, env);
    }
  }

  lemma {:induction false} ResolvedDirect(ss: seq<Stmt>, env: Seen)
    ensures |ResolveList(ss, env)| == |ss|
    ensures forall i :: 0 <= i < |ss| ==> ResolveList(ss, env)[i].Defer? == ss[i].Defer?
    decreases ss
  {
    hide After;
    if ss != [] {
      ResolvedDirect(ss[1..], After(ss[0], env));
    }
  }

  lemma {:induction false} ResolvedOk(s: Stmt, env: Seen)
    ensures WellFormed(s) ==> WellFormed(Resolve(s, env))
    decreases s, 1
  {
    hide Bind, BindOpt, BindReturned, After, AfterInit, ListOk, ArmsOk, CodeOk, ResolveList, ResolveArms, ResolveCode,
      ArmsInOrder;
    match s
    case Defer(code) => ResolvedCodeOk(code, env);
    case Block(body) => ResolvedListOk(body, env);
    case If(_, thn, els) =>
      ResolvedListOk(thn, env);
      if els.Some? {
        ResolvedOk(els.value, env);
      }
    case Match(_, arms) =>
      ResolvedArmsOk(arms, env);
      ResolvedOrder(arms, env);
    case While(_, body) => ResolvedListOk(body, env);
    case For(init, _, _, body) => ResolvedListOk(body, AfterInit(init, env));
    case _ =>
  }

  lemma {:induction false} ResolvedListOk(ss: seq<Stmt>, env: Seen)
    ensures ListOk(ss) ==> ListOk(ResolveList(ss, env))
    decreases ss, 0
  {
    hide Resolve, WellFormed, After;
    if ss != [] {
      ResolvedOk(ss[0], env);
      ResolvedListOk(ss[1..], After(ss[0], env));
      assert ResolveList(ss, env)[1..] == ResolveList(ss[1..], After(ss[0], env));
    }
  }

  lemma {:induction false} ResolvedArmsOk(arms: Arms, env: Seen)
    ensures ArmsOk(arms) ==> ArmsOk(ResolveArms(arms, env))
    decreases arms, 0
  {
    hide WellFormed, BindOpt, Bind, ResolveList;
    if arms.Arm? {
      ResolvedOk(arms.body, env);
      ResolvedArmsOk(arms.rest, env);
    }
  }

  lemma {:induction false} ResolvedCodeOk(c: Code, env: Seen)
    ensures CodeOk(c) ==> CodeOk(ResolveCode(c, env))
    decreases c, 0
  {
    hide ListOk, ListHasControlFlow, ResolveList;
    if c.Braced? {
      ResolvedListOk(c.stmts, env);
      ResolvedListFlow(c.stmts, env);
      ResolvedDirect(c.stmts, env);
    }
  }

  // ----- meaning, with states of scoped variables -----

  /** What the emitter writes for a function body, read as C and with its names resolved as C does, runs like the
      source with its names resolved where they stand and its deferred code pending scope by scope, if every piece
      keeps its names. Expressions are given with what their names denote, so that `env` may read and write the
      variables of a state. */
  lemma EmittedTextMeansTheSource<S, V>(env: Env<S, V>, n: nat, body: seq<Stmt>, params: Seen, st: S)
    requires ListOk(body) && NewList(body, params) && AllKeep(FunctionPieces(body, params))
    ensures var r := ReadBraces(Braces(TextList(WeaveFunction(body))));
            r.Got? && r.rest == []
            && ExecTFunction(env, n, ResolveCList(r.value, params), st)
               == ExecFunction(env, Documented, n, ResolveList(body, params), st)
  {
    hide ReadBraces, Braces, TextList, ListOk, NewList, AllKeep, FunctionPieces, ResolveList, ResolveCList,
      WeaveFunction, ExecTFunction, ExecFunction;
    EmittedTextIsTheProgram(body);
    NamesAreKeptExactly(body, params);
    ResolvedListOk(body, params);
    WeavingKeepsMeaning(env, n, ResolveList(body, params), st);
  }
}
