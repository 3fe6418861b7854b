/** A copy of deferred code keeps its bindings exactly when its free names mean in the place of the copy what they
    meant at the `defer`; everything inside the code is bound as it would be at the `defer`. */
module DeferCopies {
  import opened Options
  import opened DeferSyntax
  import opened DeferSource
  import opened DeferNames
  import opened DeferFree

  // ----- the same declarations behind two outsides -----

  lemma AfterBehind(s: Stmt, a: Seen, d: Seen)
    ensures After(s, a + d) == a + After(s, d)
    ensures Names(After(s, d)) == Names(d) + Declares(s)
    ensures !s.Defer? && New(s, a + d) ==> exists more :: After(s, d) == d + more && Ids(more) !! Ids(a + d)
  {
    hide Names, Ids;
    if s.Action? {
      var more := Decls(s.a);
      DeclsOf(s.a);
      Together(d, more);
      assert a + d + more == a + (d + more);
      assert NewExpr(s.a, a + d) ==> Ids(more) !! Ids(a + d);
    } else {
      var none: Seen := [];
      assert d == d + none;
      NoDeclarations();
    }
  }

  lemma InitBehind(init: Option<Expr>, a: Seen, d: Seen)
    ensures AfterInit(init, a + d) == a + AfterInit(init, d)
    ensures Names(AfterInit(init, d)) == Names(d) + OptDeclares(init)
  {
    if init.Some? {
      DeclsOf(init.value);
      Together(d, Decls(init.value));
    }
  }

  lemma ExprSplits(e: Expr, a: Seen, b: Seen, d: Seen)
    ensures Bind(e, a + d) == Bind(e, b + d) <==> Alike(a, b, e.uses - Names(d))
  {
    BindAlike(e, a + d, b + d);
    AlikeBehind(a, b, d, e.uses);
  }

  lemma OptSplits(e: Option<Expr>, a: Seen, b: Seen, d: Seen)
    ensures BindOpt(e, a + d) == BindOpt(e, b + d) <==> Alike(a, b, OptUses(e) - Names(d))
  {
    if e.Some? {
      ExprSplits(e.value, a, b, d);
    }
  }

  /** A declaration whose initialiser sees it in C. */
  lemma DeclSplits(e: Expr, a: Seen, b: Seen, d: Seen)
    requires NewExpr(e, a + d)
    ensures Bind(e, a + d) == BindC(e, b + d) <==> Bind(e, a + d) == BindC(e, a + d) && Alike(a, b, e.uses - Names(d))
  {
    hide Bind, Alike, Decls, Names;
    if e.own {
      var more := Decls(e);
      DeclsOf(e);
      assert b + d + more == b + (d + more) && a + d + more == a + (d + more);
      AlikeAcross(a, b, d, more, e.uses);
      BindAlike(e, a + d, b + (d + more));
      BindAlike(e, a + d, a + (d + more));
    } else {
      ExprSplits(e, a, b, d);
    }
  }

  // ----- code without control flow -----

  /** What the pending code of a scope needs of the outside `a`. */
  predicate PendingAlike(ps: seq<Pending>, a: Seen, b: Seen)
    requires forall i :: 0 <= i < |ps| ==> a <= ps[i].at
  {
    forall i :: 0 <= i < |ps| ==> Alike(a, b, FreeCode(ps[i].code) - Names(ps[i].at[|a|..]))
  }

  /** The pending code of a scope was registered behind the outside `a`. */
  predicate Behind(ps: seq<Pending>, a: Seen) {
    forall i :: 0 <= i < |ps| ==> a <= ps[i].at
  }

  lemma MinusUnion(xs: set<string>, ys: set<string>, zs: set<string>)
    ensures xs + ys - zs == (xs - zs) + (ys - zs)
    ensures xs - ys - zs == xs - (zs + ys)
  {}

  lemma {:induction false} StmtSplits(s: Stmt, sc: seq<NamedScope>, a: Seen, b: Seen, d: Seen)
    requires WellFormed(s) && !s.Defer? && !HasControlFlow(s) && New(s, a + d)
    ensures Fits(s, sc, a + d, b + d) <==> Fits(s, sc, a + d, a + d) && Alike(a, b, Free(s) - Names(d))
    decreases Size(s) + ScopesSize(sc), 0, 0
  {
    hide Alike, Bind, BindC, Names, Ids, OptUses, OptDeclares, FitsScope, FitsArms, FreeList, FreeArms, NewList,
      NewArms, ListOk, ArmsOk, ListHasControlFlow, ArmsHaveControlFlow, DeclaredBy;
    match s
    case Action(e) => DeclSplits(e, a, b, d);
    case Block(body) => ScopeSplits(body, BlockScope, sc, a, b, d);
    case If(cond, thn, els) => IfSplits(cond, thn, els, sc, a, b, d);
    case Match(scrutinee, arms) =>
      ExprSplits(scrutinee, a, b, d);
      ArmsSplit(arms, sc, a, b, d);
      MinusUnion(scrutinee.uses, FreeArms(arms), Names(d));
      AlikeUnion(a, b, scrutinee.uses - Names(d), FreeArms(arms) - Names(d));
    case While(cond, body) =>
      ExprSplits(cond, a, b, d);
      ScopeSplits(body, LoopScope, sc, a, b, d);
      MinusUnion(cond.uses, FreeList(body), Names(d));
      AlikeUnion(a, b, cond.uses - Names(d), FreeList(body) - Names(d));
    case For(init, test, post, body) => ForSplits(init, test, post, body, sc, a, b, d);
  }

  lemma {:induction false} IfSplits(cond: Expr, thn: seq<Stmt>, els: Option<Stmt>, sc: seq<NamedScope>, a: Seen,
                                    b: Seen, d: Seen)
    requires var s := If(cond, thn, els); WellFormed(s) && !HasControlFlow(s) && New(s, a + d)
    ensures var s := If(cond, thn, els);
            Fits(s, sc, a + d, b + d) <==> Fits(s, sc, a + d, a + d) && Alike(a, b, Free(s) - Names(d))
    decreases Size(If(cond, thn, els)) + ScopesSize(sc) - 1, 9, 0
  {
    hide Alike, Bind, Names, FitsScope, FreeList, NewList, ListOk, ListHasControlFlow;
    ExprSplits(cond, a, b, d);
    ScopeSplits(thn, BlockScope, sc, a, b, d);
    MinusUnion(cond.uses, FreeList(thn), Names(d));
    AlikeUnion(a, b, cond.uses - Names(d), FreeList(thn) - Names(d));
    if els.Some? {
      StmtSplits(els.value, sc, a, b, d);
      MinusUnion(cond.uses + FreeList(thn), Free(els.value), Names(d));
      AlikeUnion(a, b, cond.uses + FreeList(thn) - Names(d), Free(els.value) - Names(d));
    } else {
      assert cond.uses + FreeList(thn) + {} == cond.uses + FreeList(thn);
    }
  }

  lemma {:induction false} ForSplits(init: Option<Expr>, test: Option<Expr>, post: Option<Expr>, body: seq<Stmt>,
                                     sc: seq<NamedScope>, a: Seen, b: Seen, d: Seen)
    requires var s := For(init, test, post, body); WellFormed(s) && !HasControlFlow(s) && New(s, a + d)
    ensures var s := For(init, test, post, body);
            Fits(s, sc, a + d, b + d) <==> Fits(s, sc, a + d, a + d) && Alike(a, b, Free(s) - Names(d))
    decreases Size(For(init, test, post, body)) + ScopesSize(sc) - 1, 9, 0
  {
    hide Alike, Bind, BindC, BindOpt, Names, Ids, OptUses, OptDeclares, FitsScope, FreeList, NewList, ListOk,
      ListHasControlFlow, AfterInit, NewExpr;
    var d' := AfterInit(init, d);
    InitBehind(init, a, d);
    InitBehind(init, b, d);
    var inner := OptUses(test) + OptUses(post) + FreeList(body);
    OptSplits(test, a, b, d');
    OptSplits(post, a, b, d');
    ScopeSplits(body, LoopScope, sc, a, b, d');
    MinusUnion(OptUses(test), OptUses(post), Names(d'));
    MinusUnion(OptUses(test) + OptUses(post), FreeList(body), Names(d'));
    Alike3(a, b, OptUses(test) - Names(d'), OptUses(post) - Names(d'), FreeList(body) - Names(d'));
    MinusUnion(OptUses(init), inner - OptDeclares(init), Names(d));
    MinusUnion(inner, OptDeclares(init), Names(d));
    AlikeUnion(a, b, OptUses(init) - Names(d), inner - Names(d'));
    InitSplits(init, a, b, d);
  }

  lemma InitSplits(init: Option<Expr>, a: Seen, b: Seen, d: Seen)
    requires init.Some? ==> NewExpr(init.value, a + d)
    ensures BindOpt(init, a + d) == BindOptC(init, b + d)
            <==> BindOpt(init, a + d) == BindOptC(init, a + d) && Alike(a, b, OptUses(init) - Names(d))
  {
    if init.Some? {
      DeclSplits(init.value, a, b, d);
    }
  }

  lemma {:induction false} ScopeSplits(body: seq<Stmt>, k: Kind, sc: seq<NamedScope>, a: Seen, b: Seen, d: Seen)
    requires ListOk(body) && !ListHasControlFlow(body) && NewList(body, a + d)
    ensures FitsScope(body, k, sc, a + d, b + d)
            <==> FitsScope(body, k, sc, a + d, a + d) && Alike(a, b, FreeList(body) - Names(d))
    decreases ListSize(body) + ScopesSize(sc), 6, 0
  {
    hide FitsList, Alike, FreeList, NewList, ListOk, ListHasControlFlow, Names;
    EnterNamed(sc, NamedScope(k, []));
    ListSplits(body, sc + [NamedScope(k, [])], a, b, d);
  }

  lemma {:induction false} ListSplits(ss: seq<Stmt>, sc: seq<NamedScope>, a: Seen, b: Seen, d: Seen)
    requires ListOk(ss) && !ListHasControlFlow(ss) && NewList(ss, a + d)
    requires sc != [] && AllWait(Last(sc).defers, a + d) && Behind(Last(sc).defers, a)
    ensures FitsList(ss, sc, a + d, b + d)
            <==> FitsList(ss, sc, a + d, a + d) && Alike(a, b, FreeList(ss) - Names(d)) && PendingAlike(Last(sc).defers, a, b)
    decreases ListSize(ss) + ScopesSize(sc), 5, 0
  {
    hide Fits, FitsCodes, Alike, Names, Ids, Free, New, WellFormed, HasControlFlow, Waits, ScopesSize, Remember,
      After, FreeCode, NewCode, AllWait, PendingAlike, Behind, Declares;
    if ss == [] {
      LastSize(sc);
      CodesSplit(Last(sc).defers, a, b, d);
      AlikeNone(a, b, Names(d));
    } else if ss[0].Defer? {
      DeferSplits(ss, sc, a, b, d);
    } else {
      var s := ss[0];
      StmtSplits(s, sc, a, b, d);
      AfterBehind(s, a, d);
      AfterBehind(s, b, d);
      var more :| After(s, d) == d + more && Ids(more) !! Ids(a + d);
      assert a + (d + more) == (a + d) + more;
      AllWaitFurther(Last(sc).defers, a + d, more);
      ListSplits(ss[1..], sc, a, b, After(s, d));
      MinusUnion(Free(s), FreeList(ss[1..]) - Declares(s), Names(d));
      MinusUnion(FreeList(ss[1..]), Declares(s), Names(d));
      AlikeUnion(a, b, Free(s) - Names(d), FreeList(ss[1..]) - Names(After(s, d)));
    }
  }

  lemma {:induction false} DeferSplits(ss: seq<Stmt>, sc: seq<NamedScope>, a: Seen, b: Seen, d: Seen)
    requires ss != [] && ss[0].Defer? && ListOk(ss) && !ListHasControlFlow(ss) && NewList(ss, a + d)
    requires sc != [] && AllWait(Last(sc).defers, a + d) && Behind(Last(sc).defers, a)
    ensures FitsList(ss, sc, a + d, b + d)
            <==> FitsList(ss, sc, a + d, a + d) && Alike(a, b, FreeList(ss) - Names(d)) && PendingAlike(Last(sc).defers, a, b)
    decreases ListSize(ss) + ScopesSize(sc), 4, 0
  {
    hide Fits, FitsCodes, Alike, Names, Ids, HasControlFlow, ScopesSize, Remember, FreeCode, NewCode, AllWait, Waits,
      PendingAlike, Behind, DeclaredBy, CodeOk;
    var c, ps := ss[0].code, Last(sc).defers;
    RememberSize(sc, c, a + d);
    assert Size(ss[0]) == 1 + CodeSize(c);
    WaitsHere(ps, c, a, d);
    ListSplits(ss[1..], Remember(sc, c, a + d), a, b, d);
    PendingSplits(ps, c, a, b, d);
    assert FreeList(ss[1..]) - {} == FreeList(ss[1..]);
    MinusUnion(FreeCode(c), FreeList(ss[1..]), Names(d));
    AlikeUnion(a, b, FreeCode(c) - Names(d), FreeList(ss[1..]) - Names(d));
  }

  /** Code that is deferred joins the code that waits. */
  lemma WaitsHere(ps: seq<Pending>, c: Code, a: Seen, d: Seen)
    requires CodeOk(c) && NewCode(c, a + d) && AllWait(ps, a + d) && Behind(ps, a)
    ensures AllWait(ps + [Pending(c, a + d)], a + d) && Behind(ps + [Pending(c, a + d)], a)
  {
    hide CodeOk, NewCode;
    var p := Pending(c, a + d);
    assert (a + d)[|p.at|..] == [];
    NoDeclarations();
    assert Waits(p, a + d);
  }

  lemma PendingSplits(ps: seq<Pending>, c: Code, a: Seen, b: Seen, d: Seen)
    requires Behind(ps, a)
    ensures Behind(ps + [Pending(c, a + d)], a)
    ensures PendingAlike(ps + [Pending(c, a + d)], a, b) <==> PendingAlike(ps, a, b) && Alike(a, b, FreeCode(c) - Names(d))
  {
    hide Alike, FreeCode, Names;
    var p := Pending(c, a + d);
    var more := ps + [p];
    assert p.at[|a|..] == d;
    assert forall i :: 0 <= i < |ps| ==> more[i] == ps[i];
    assert more[|ps|] == p;
  }

  lemma {:induction false} CodesSplit(ps: seq<Pending>, a: Seen, b: Seen, d: Seen)
    requires AllWait(ps, a + d) && Behind(ps, a)
    ensures FitsCodes(ps, b + d) <==> FitsCodes(ps, a + d) && PendingAlike(ps, a, b)
    decreases PendingSize(ps), 2, 0
  {
    hide FitsCode, Alike, FreeCode, Names;
    if ps != [] {
      var p, q := ps[|ps| - 1], ps[..|ps| - 1];
      assert ps == q + [p];
      assert Waits(p, a + d);
      CodesSplit(q, a, b, d);
      PendingSplits(q, p.code, a, b, p.at[|a|..]);
      assert a + p.at[|a|..] == p.at;
      CopySplits(p, a, b, d);
    }
  }

  /** One copy, written behind two outsides. */
  lemma {:induction false} CopySplits(p: Pending, a: Seen, b: Seen, d: Seen)
    requires Waits(p, a + d) && a <= p.at
    ensures FitsCode(p.code, p.at, b + d)
            <==> FitsCode(p.code, p.at, a + d) && Alike(a, b, FreeCode(p.code) - Names(p.at[|a|..]))
    decreases CodeSize(p.code), 1, 1
  {
    hide FitsCode, Alike, FreeCode, Names, CodeOk, NewCode, Ids;
    var inner, more := p.at[|a|..], (a + d)[|p.at|..];
    assert p.at == a + inner && d == inner + more;
    CodeSplits(p.code, p.at, b + d);
    CodeSplits(p.code, p.at, a + d);
    AlikeAcross(a, b, inner, more, FreeCode(p.code));
  }

  /** A copy of deferred code agrees with its meaning at the `defer` exactly when its free names do, and it would
      agree if it were written there. */
  lemma {:induction false} CodeSplits(c: Code, at: Seen, place: Seen)
    requires CodeOk(c) && NewCode(c, at)
    ensures FitsCode(c, at, place) <==> FitsCode(c, at, at) && Alike(at, place, FreeCode(c))
    decreases CodeSize(c), 1, 0
  {
    hide Bind, Alike, FitsPlain, FreeList, Names;
    match c
    case Single(e) =>
      assert Decls(e) == [];
      assert at + Decls(e) == at && place + Decls(e) == place;
      BindAlike(e, at, place);
      assert BindC(e, at) == Bind(e, at) && BindC(e, place) == Bind(e, place);
    case Braced(stmts) =>
      var none: Seen := [];
      assert at + none == at && place + none == place;
      PlainSplits(stmts, at, place, none);
      NoDeclarations();
      assert FreeList(stmts) - {} == FreeList(stmts);
  }

  lemma {:induction false} PlainSplits(ss: seq<Stmt>, a: Seen, b: Seen, d: Seen)
    requires ListOk(ss) && !DirectDefer(ss) && !ListHasControlFlow(ss) && NewList(ss, a + d)
    ensures FitsPlain(ss, a + d, b + d) <==> FitsPlain(ss, a + d, a + d) && Alike(a, b, FreeList(ss) - Names(d))
    decreases ListSize(ss), 5, 0
  {
    hide Fits, Alike, Names, Ids, Free, New, WellFormed, HasControlFlow, After, Declares;
    if ss == [] {
      AlikeNone(a, b, Names(d));
    } else {
      var s := ss[0];
      assert !s.Defer?;
      assert forall i :: 0 <= i < |ss[1..]| ==> ss[1..][i] == ss[i + 1];
      StmtSplits(s, [], a, b, d);
      AfterBehind(s, a, d);
      AfterBehind(s, b, d);
      PlainSplits(ss[1..], a, b, After(s, d));
      MinusUnion(Free(s), FreeList(ss[1..]) - Declares(s), Names(d));
      MinusUnion(FreeList(ss[1..]), Declares(s), Names(d));
      AlikeUnion(a, b, Free(s) - Names(d), FreeList(ss[1..]) - Names(After(s, d)));
    }
  }

  lemma {:induction false} ArmsSplit(arms: Arms, sc: seq<NamedScope>, a: Seen, b: Seen, d: Seen)
    requires ArmsOk(arms) && !ArmsHaveControlFlow(arms) && NewArms(arms, a + d)
    ensures FitsArms(arms, sc, a + d, b + d) <==> FitsArms(arms, sc, a + d, a + d) && Alike(a, b, FreeArms(arms) - Names(d))
    decreases ArmsSize(arms) + ScopesSize(sc), 2, 0
  {
    hide Fits, Alike, Names, BindOpt, OptUses, Free, New, WellFormed, HasControlFlow;
    if arms.Arm? {
      OptSplits(arms.pattern, a, b, d);
      StmtSplits(arms.body, sc, a, b, d);
      ArmsSplit(arms.rest, sc, a, b, d);
      MinusUnion(OptUses(arms.pattern) + Free(arms.body), FreeArms(arms.rest), Names(d));
      MinusUnion(OptUses(arms.pattern), Free(arms.body), Names(d));
      Alike3(a, b, OptUses(arms.pattern) - Names(d), Free(arms.body) - Names(d), FreeArms(arms.rest) - Names(d));
    } else {
      AlikeNone(a, b, Names(d));
    }
  }
}
