/** The emitter's statement visitors. They append text fragments to `functions` and keep the stack of lexical
    scopes; the text they write is that of the woven program. */
module DeferEmitter {
  import opened Options
  import opened DeferSyntax
  import opened DeferSource
  import opened DeferTarget
  import opened DeferWeaving
  import opened DeferProof

  /** A piece of emitted C text. */
  datatype Fragment =
    | FAct(a: Expr)
    | FOpen
    | FClose
    | FIf(cond: Expr)
    | FElse
    | FWhile(cond: Expr)
    | FFor(init: Option<Expr>, test: Option<Expr>, post: Option<Expr>)
    | FScrutinee(e: Expr)
    | FClause(kw: Keyword, pattern: Option<Expr>)
    | FSave(es: seq<Expr>)
    | FReturnSaved
    | FReturnVoid
    | FReturn(e: Expr)
    | FBreak
    | FContinue

  // ----- the text of a C statement -----

  ghost function Text(t: Target): seq<Fragment>
    decreases t, 1
  {
    match t
    case TAct(a) => [FAct(a)]
    case TBlock(body) => Braces(TextList(body))
    case TIf(cond, thn, els) =>
      [FIf(cond)] + Braces(TextList(thn)) + (if els.Some? then [FElse] + Text(els.value) else [])
    case TMatch(scrutinee, clauses) => [FScrutinee(scrutinee)] + TextClauses(clauses)
    case TWhile(cond, body) => [FWhile(cond)] + Braces(TextList(body))
    case TFor(init, test, post, body) => [FFor(init, test, post)] + Braces(TextList(body))
    case TSave(es) => [FSave(es)]
    case TReturnSaved => [FReturnSaved]
    case TReturnVoid => [FReturnVoid]
    case TReturn(e) => [FReturn(e)]
    case TBreak => [FBreak]
    case TContinue => [FContinue]
  }

  ghost function Braces(fs: seq<Fragment>): seq<Fragment> { [FOpen] + fs + [FClose] }

  ghost function TextList(ts: seq<Target>): seq<Fragment>
    decreases ts, 0
  {
    if ts == [] then [] else Text(ts[0]) + TextList(ts[1..])
  }

  ghost function TextClauses(cs: Clauses): seq<Fragment>
    decreases cs, 0
  {
    if cs.NoClauses? then []
    else [FClause(cs.kw, cs.pattern)] + Braces(TextList(cs.body)) + TextClauses(cs.rest)
  }

  lemma {:induction false} TextAppend(a: seq<Target>, b: seq<Target>)
    ensures TextList(a + b) == TextList(a) + TextList(b)
  {
    if a == [] {
      assert a + b == b;
    } else {
      assert (a + b)[1..] == a[1..] + b;
      TextAppend(a[1..], b);
    }
  }

  lemma TextOne(t: Target)
    ensures TextList([t]) == Text(t)
  {
    assert [t][1..] == [];
    assert Text(t) + [] == Text(t);
  }

  // ----- code without control flow is emitted the same wherever it is emitted -----

  lemma {:induction false} SameStmt(s: Stmt, sc: seq<Scope>, sc': seq<Scope>)
    requires !HasControlFlow(s)
    ensures Weave(s, sc) == Weave(s, sc')
    decreases Size(s), 0
  {
    match s
    case Block(body) => SameScope(body, BlockScope, sc, sc');
    case If(cond, thn, els) =>
      SameScope(thn, BlockScope, sc, sc');
      if els.Some? {
        SameStmt(els.value, sc, sc');
      }
    case Match(scrutinee, arms) => SameArms(arms, true, sc, sc');
    case While(cond, body) => SameScope(body, LoopScope, sc, sc');
    case For(init, cond, post, body) => SameScope(body, LoopScope, sc, sc');
    case _ =>
  }

  lemma {:induction false} SameScope(body: seq<Stmt>, k: Kind, sc: seq<Scope>, sc': seq<Scope>)
    requires !ListHasControlFlow(body)
    ensures WeaveScope(body, k, sc) == WeaveScope(body, k, sc')
    decreases ListSize(body), 2
  {
    SameList(body, sc + [Scope(k, [])], sc' + [Scope(k, [])]);
  }

  lemma {:induction false} SameList(ss: seq<Stmt>, sc: seq<Scope>, sc': seq<Scope>)
    requires sc != [] && sc' != [] && Top(sc) == Top(sc') && !ListHasControlFlow(ss)
    ensures WeaveList(ss, sc) == WeaveList(ss, sc')
    decreases ListSize(ss), 1
  {
    if ss != [] {
      if ss[0].Defer? {
        SameList(ss[1..], Register(sc, ss[0].code), Register(sc', ss[0].code));
      } else {
        SameStmt(ss[0], sc, sc');
        SameList(ss[1..], sc, sc');
      }
    }
  }

  lemma {:induction false} SameArms(arms: Arms, first: bool, sc: seq<Scope>, sc': seq<Scope>)
    requires !ArmsHaveControlFlow(arms)
    ensures WeaveArms(arms, first, sc) == WeaveArms(arms, first, sc')
    decreases ArmsSize(arms), 1
  {
    if arms.Arm? {
      SameStmt(arms.body, sc, sc');
      if arms.body.Block? {
        SameScope(arms.body.body, BlockScope, sc, sc');
      }
      SameArms(arms.rest, first, sc, sc');
      SameArms(arms.rest, false, sc, sc');
    }
  }

  lemma Assoc(a: seq<Fragment>, b: seq<Fragment>, c: seq<Fragment>)
    ensures a + b + c == a + (b + c)
  {}

  lemma BlockText(body: seq<Stmt>, sc: seq<Scope>, f: seq<Fragment>)
    ensures f + TextList(Weave(Block(body), sc)) == f + [FOpen] + TextList(WeaveScope(body, BlockScope, sc)) + [FClose]
  {
    TextOne(TBlock(WeaveScope(body, BlockScope, sc)));
  }

  lemma WhileText(cond: Expr, body: seq<Stmt>, sc: seq<Scope>, f: seq<Fragment>)
    ensures f + TextList(Weave(While(cond, body), sc))
            == f + [FWhile(cond), FOpen] + TextList(WeaveScope(body, LoopScope, sc)) + [FClose]
  {
    TextOne(TWhile(cond, WeaveScope(body, LoopScope, sc)));
  }

  lemma ForText(init: Option<Expr>, cond: Option<Expr>, post: Option<Expr>, body: seq<Stmt>, sc: seq<Scope>, f: seq<Fragment>)
    ensures f + TextList(Weave(For(init, cond, post, body), sc))
            == f + [FFor(init, cond, post), FOpen] + TextList(WeaveScope(body, LoopScope, sc)) + [FClose]
  {
    TextOne(TFor(init, cond, post, WeaveScope(body, LoopScope, sc)));
  }

  lemma IfText(cond: Expr, thn: seq<Stmt>, els: Option<Stmt>, sc: seq<Scope>, f: seq<Fragment>)
    requires els.Some? ==> els.value.Block? || els.value.If?
    ensures f + TextList(Weave(If(cond, thn, els), sc))
            == f + [FIf(cond), FOpen] + TextList(WeaveScope(thn, BlockScope, sc)) + [FClose]
               + (if els.Some? then [FElse] + TextList(Weave(els.value, sc)) else [])
  {
    hide WeaveScope, WeaveArms;
    var t := TIf(cond, WeaveScope(thn, BlockScope, sc), if els.Some? then Some(WeaveElse(els.value, sc)) else None);
    TextOne(t);
    if els.Some? {
      assert |Weave(els.value, sc)| == 1;
      TextOne(WeaveElse(els.value, sc));
    }
  }

  lemma MatchText(scrutinee: Expr, arms: Arms, sc: seq<Scope>, f: seq<Fragment>)
    ensures f + TextList(Weave(Match(scrutinee, arms), sc))
            == f + [FOpen, FScrutinee(scrutinee)] + TextClauses(WeaveArms(arms, true, sc)) + [FClose]
  {
    var m := TMatch(scrutinee, WeaveArms(arms, true, sc));
    TextOne(m);
    TextOne(TBlock([m]));
  }

  lemma ExitText(pre: seq<Target>, t: Target, f: seq<Fragment>)
    ensures f + TextList(pre + [t]) == f + TextList(pre) + Text(t)
  {
    TextAppend(pre, [t]);
    TextOne(t);
  }

  lemma SavedText(es: seq<Expr>, pre: seq<Target>, f: seq<Fragment>)
    ensures f + TextList([TSave(es)] + pre + [TReturnSaved]) == f + [FSave(es)] + TextList(pre) + [FReturnSaved]
  {
    TextAppend([TSave(es)] + pre, [TReturnSaved]);
    TextAppend([TSave(es)], pre);
    TextOne(TSave(es));
    TextOne(TReturnSaved);
  }

  lemma ArmsText(arms: Arms, first: bool, sc: seq<Scope>, f: seq<Fragment>)
    requires arms.Arm?
    ensures var kw := if arms.pattern.None? then ElseKw else if first then IfKw else ElseIfKw;
            f + TextClauses(WeaveArms(arms, first, sc))
            == f + [FClause(kw, arms.pattern)] + Braces(TextList(WeaveArm(arms.body, sc)))
               + TextClauses(WeaveArms(arms.rest, first && arms.pattern.None?, sc))
  {}

  lemma CodesText(p: seq<Code>, it: nat, f: seq<Fragment>)
    requires it < |p|
    ensures f + TextList(WeaveCodes(p[..it + 1])) == f + TextList(WeaveCode(p[it])) + TextList(WeaveCodes(p[..it]))
    ensures CodesSize(p[..it + 1]) == CodeSize(p[it]) + CodesSize(p[..it])
  {
    assert p[..it + 1][..it] == p[..it];
    TextAppend(WeaveCode(p[it]), WeaveCodes(p[..it]));
  }

  lemma PrefixOfStack(sc: seq<Scope>, i: nat)
    requires i < |sc|
    ensures Outer(sc[..i + 1]) == sc[..i] && Top(sc[..i + 1]) == sc[i]
    ensures StackSize(sc[..i + 1]) == CodesSize(sc[i].defers) + StackSize(sc[..i])
  {
    assert sc[..i + 1][..i] == sc[..i];
  }

  lemma AllText(sc: seq<Scope>, i: nat, f: seq<Fragment>)
    requires i < |sc|
    ensures f + TextList(WeaveAll(sc[..i + 1])) == f + TextList(WeaveCodes(sc[i].defers)) + TextList(WeaveAll(sc[..i]))
  {
    PrefixOfStack(sc, i);
    TextAppend(WeaveCodes(sc[i].defers), WeaveAll(sc[..i]));
    Assoc(f, TextList(WeaveCodes(sc[i].defers)), TextList(WeaveAll(sc[..i])));
  }

  lemma ToLoopText(sc: seq<Scope>, i: nat, f: seq<Fragment>)
    requires i < |sc|
    ensures sc[i].kind.LoopScope? ==> WeaveToLoop(sc[..i + 1]) == []
    ensures !sc[i].kind.LoopScope? ==>
      f + TextList(WeaveToLoop(sc[..i + 1])) == f + TextList(WeaveCodes(sc[i].defers)) + TextList(WeaveToLoop(sc[..i]))
  {
    PrefixOfStack(sc, i);
    TextAppend(WeaveCodes(sc[i].defers), WeaveToLoop(sc[..i]));
    Assoc(f, TextList(WeaveCodes(sc[i].defers)), TextList(WeaveToLoop(sc[..i])));
  }

  lemma PlainText(ss: seq<Stmt>, i: nat, f: seq<Fragment>)
    requires i < |ss|
    ensures f + TextList(WeavePlain(ss[i..])) == f + TextList(Weave(ss[i], [])) + TextList(WeavePlain(ss[i + 1..]))
  {
    assert ss[i..][1..] == ss[i + 1..];
    TextAppend(Weave(ss[i], []), WeavePlain(ss[i + 1..]));
  }

  lemma ListText(body: seq<Stmt>, i: nat, sc: seq<Scope>, f: seq<Fragment>)
    requires i < |body| && sc != []
    ensures body[i].Defer? ==> WeaveList(body[i..], sc) == WeaveList(body[i + 1..], Register(sc, body[i].code))
    ensures !body[i].Defer? ==>
      f + TextList(WeaveList(body[i..], sc)) == f + TextList(Weave(body[i], sc)) + TextList(WeaveList(body[i + 1..], sc))
  {
    assert body[i..][1..] == body[i + 1..];
    if !body[i].Defer? {
      TextAppend(Weave(body[i], sc), WeaveList(body[i + 1..], sc));
    }
  }

  lemma StepSizes(body: seq<Stmt>, i: nat, p: seq<Code>)
    requires i < |body|
    ensures ListSize(body[i..]) == Size(body[i]) + ListSize(body[i + 1..])
    ensures body[i].Defer? ==> CodesSize(p + [body[i].code]) < CodesSize(p) + Size(body[i])
    ensures ListHasControlFlow(body[i..]) <==> HasControlFlow(body[i]) || ListHasControlFlow(body[i + 1..])
    ensures ListOk(body[i..]) <==> WellFormed(body[i]) && ListOk(body[i + 1..])
  {
    assert body[i..][1..] == body[i + 1..];
    if body[i].Defer? {
      PushSize(p, body[i].code);
    }
  }

  // ----- the emitter -----

  /** Deferred code that has been registered was accepted by the checker. */
  ghost predicate StackSafe(sc: seq<Scope>) {
    forall i :: 0 <= i < |sc| ==> NoFlow(sc[i].defers) && CodesOk(sc[i].defers)
  }

  ghost function Flow(b: bool): nat { if b then 1 else 0 }

  class Emitter {
    var functions: seq<Fragment>
    var scopes: seq<Scope>

    constructor ()
      ensures functions == [] && scopes == []
    {
      functions, scopes := [], [];
    }

    /** One statement: visit(block_c), visit(if_c), ..., visit(defer_c). */
    method Visit(s: Stmt)
      requires WellFormed(s) && StackSafe(scopes)
      requires s.Defer? ==> scopes != []
      modifies this
      ensures s.Defer? ==> functions == old(functions) && scopes == Register(old(scopes), s.code)
      ensures !s.Defer? ==> scopes == old(scopes) && functions == old(functions) + TextList(Weave(s, old(scopes)))
      decreases Flow(HasControlFlow(s)), Size(s), 0
    {
      ghost var before := functions;
      match s {
        case Action(a) =>
          functions := functions + [FAct(a)];
          TextOne(TAct(a));
        case Defer(code) =>
          var top := scopes[|scopes| - 1];
          scopes := scopes[..|scopes| - 1] + [Scope(top.kind, top.defers + [code])];
        case Block(body) =>
          BlockText(body, scopes, before);
          functions := functions + [FOpen];
          VisitScope(body, BlockScope);
          functions := functions + [FClose];
        case If(cond, thn, els) =>
          VisitIf(cond, thn, els);
        case Match(scrutinee, arms) =>
          VisitMatch(scrutinee, arms);
        case While(cond, body) =>
          WhileText(cond, body, scopes, before);
          functions := functions + [FWhile(cond), FOpen];
          VisitScope(body, LoopScope);
          functions := functions + [FClose];
        case For(init, cond, post, body) =>
          ForText(init, cond, post, body, scopes, before);
          functions := functions + [FFor(init, cond, post), FOpen];
          VisitScope(body, LoopScope);
          functions := functions + [FClose];
        case Return(what) =>
          VisitReturn(what);
        case Break =>
          ExitText(WeaveToLoop(scopes), TBreak, before);
          EmitToLoop();
          functions := functions + [FBreak];
        case Continue =>
          ExitText(WeaveToLoop(scopes), TContinue, before);
          EmitToLoop();
          functions := functions + [FContinue];
      }
    }

    method VisitIf(cond: Expr, thn: seq<Stmt>, els: Option<Stmt>)
      requires WellFormed(If(cond, thn, els)) && StackSafe(scopes)
      modifies this
      ensures scopes == old(scopes)
      ensures functions == old(functions) + TextList(Weave(If(cond, thn, els), old(scopes)))
      decreases Flow(HasControlFlow(If(cond, thn, els))), Size(If(cond, thn, els)) - 1, 9
    {
      IfText(cond, thn, els, scopes, functions);
      functions := functions + [FIf(cond), FOpen];
      VisitScope(thn, BlockScope);
      functions := functions + [FClose];
      if els.Some? {
        ghost var f := functions;
        functions := functions + [FElse];
        Visit(els.value);
        Assoc(f, [FElse], TextList(Weave(els.value, scopes)));
      }
    }

    method VisitReturn(what: Returned)
      requires StackSafe(scopes)
      modifies this
      ensures scopes == old(scopes)
      ensures functions == old(functions) + TextList(Weave(Return(what), old(scopes)))
      decreases 1, 0, 0
    {
      match what {
        case Void =>
          ExitText(WeaveAll(scopes), TReturnVoid, functions);
          EmitAllRemaining();
          functions := functions + [FReturnVoid];
        case Plain(e) =>
          ExitText(WeaveAll(scopes), TReturn(e), functions);
          EmitAllRemaining();
          functions := functions + [FReturn(e)];
        case Call(e) =>
          SavedText([e], WeaveAll(scopes), functions);
          functions := functions + [FSave([e])];
          EmitAllRemaining();
          functions := functions + [FReturnSaved];
        case Tuple(es) =>
          SavedText(es, WeaveAll(scopes), functions);
          functions := functions + [FSave(es)];
          EmitAllRemaining();
          functions := functions + [FReturnSaved];
      }
    }

    /** One temporary for the scrutinee, then a clause for each arm; only the first `case` opens with `if`. */
    method VisitMatch(scrutinee: Expr, arms: Arms)
      requires ArmsOk(arms) && StackSafe(scopes)
      modifies this
      ensures scopes == old(scopes)
      ensures functions == old(functions) + TextList(Weave(Match(scrutinee, arms), old(scopes)))
      decreases Flow(ArmsHaveControlFlow(arms)), ArmsSize(arms), 9
    {
      MatchText(scrutinee, arms, scopes, functions);
      functions := functions + [FOpen, FScrutinee(scrutinee)];
      ghost var all := functions + TextClauses(WeaveArms(arms, true, scopes));
      var firstCase := true;
      var rest := arms;
      while rest.Arm?
        invariant ArmsOk(rest) && ArmsSize(rest) <= ArmsSize(arms)
        invariant ArmsHaveControlFlow(rest) ==> ArmsHaveControlFlow(arms)
        invariant scopes == old(scopes)
        invariant functions + TextClauses(WeaveArms(rest, firstCase, scopes)) == all
        decreases rest
      {
        ArmsText(rest, firstCase, scopes, functions);
        if rest.pattern.None? {
          functions := functions + [FClause(ElseKw, None)];
        } else {
          functions := functions + [FClause(if firstCase then IfKw else ElseIfKw, rest.pattern)];
        }
        firstCase := firstCase && rest.pattern.None?;
        VisitArm(rest.body);
        rest := rest.rest;
      }
      functions := functions + [FClose];
    }

    /** A block brings its own braces and scope; any other body gets braces only. */
    method VisitArm(s: Stmt)
      requires WellFormed(s) && ArmBody(s) && StackSafe(scopes)
      modifies this
      ensures scopes == old(scopes)
      ensures functions == old(functions) + Braces(TextList(WeaveArm(s, old(scopes))))
      decreases Flow(HasControlFlow(s)), Size(s), 1
    {
      ghost var before := functions;
      if s.Block? {
        BlockText(s.body, scopes, before);
        Visit(s);
      } else {
        functions := functions + [FOpen];
        Visit(s);
        functions := functions + [FClose];
      }
      assert functions == before + [FOpen] + TextList(WeaveArm(s, scopes)) + [FClose];
    }

    /** push_defer_scope, the statements, emit_scope_defers, pop_defer_scope. */
    method VisitScope(body: seq<Stmt>, k: Kind)
      requires ListOk(body) && StackSafe(scopes)
      modifies this
      ensures scopes == old(scopes)
      ensures functions == old(functions) + TextList(WeaveScope(body, k, old(scopes)))
      decreases Flow(ListHasControlFlow(body)), ListSize(body), 8
    {
      ghost var outer := scopes;
      ghost var all := functions + TextList(WeaveScope(body, k, outer));
      scopes := scopes + [Scope(k, [])];
      VisitStatements(body, all);
      assert scopes[..|outer|] == outer;
      EmitScopeDefers(|scopes| - 1);
      scopes := scopes[..|scopes| - 1];
    }

    /** The statements of the scope on top of the stack. */
    method VisitStatements(body: seq<Stmt>, ghost all: seq<Fragment>)
      requires ListOk(body) && StackSafe(scopes) && scopes != [] && Top(scopes).defers == []
      requires functions + TextList(WeaveList(body, scopes)) == all
      modifies this
      ensures |scopes| == |old(scopes)| && Outer(scopes) == Outer(old(scopes)) && StackSafe(scopes)
      ensures functions + TextList(WeaveCodes(Top(scopes).defers)) == all
      ensures CodesSize(Top(scopes).defers) <= ListSize(body)
      decreases Flow(ListHasControlFlow(body)), ListSize(body), 7
    {
      var i := 0;
      assert body[0..] == body;
      while i < |body|
        invariant 0 <= i <= |body| && ListOk(body[i..])
        invariant |scopes| == |old(scopes)| && Outer(scopes) == Outer(old(scopes)) && StackSafe(scopes)
        invariant functions + TextList(WeaveList(body[i..], scopes)) == all
        invariant ListSize(body[i..]) + CodesSize(Top(scopes).defers) <= ListSize(body)
        invariant ListHasControlFlow(body[i..]) ==> ListHasControlFlow(body)
      {
        StepSizes(body, i, Top(scopes).defers);
        ListText(body, i, scopes, functions);
        Registered(body[i], scopes);
        Visit(body[i]);
        i := i + 1;
      }
      assert body[i..] == [];
    }

    /** emit_scope_defers: the deferred code of one scope, last registered first. */
    method EmitScopeDefers(k: nat)
      requires k < |scopes| && StackSafe(scopes)
      modifies this
      ensures scopes == old(scopes)
      ensures functions == old(functions) + TextList(WeaveCodes(scopes[k].defers))
      decreases 0, CodesSize(scopes[k].defers), 5
    {
      ghost var all := functions + TextList(WeaveCodes(scopes[k].defers));
      ghost var p := scopes[k].defers;
      var it := |scopes[k].defers|;
      assert p[..it] == p;
      while it > 0
        invariant 0 <= it <= |p| && scopes == old(scopes)
        invariant functions + TextList(WeaveCodes(p[..it])) == all
        invariant CodesSize(p[..it]) <= CodesSize(p)
      {
        it := it - 1;
        CodesText(p, it, functions);
        EmitCode(scopes[k].defers[it]);
      }
    }

    method EmitCode(c: Code)
      requires CodeOk(c) && !CodeHasControlFlow(c) && StackSafe(scopes)
      modifies this
      ensures scopes == old(scopes)
      ensures functions == old(functions) + TextList(WeaveCode(c))
      decreases 0, CodeSize(c), 4
    {
      match c {
        case Single(a) =>
          functions := functions + [FAct(a)];
          TextOne(TAct(a));
        case Braced(stmts) =>
          TextOne(TBlock(WeavePlain(stmts)));
          functions := functions + [FOpen];
          EmitPlain(stmts);
          functions := functions + [FClose];
      }
    }

    /** The statements of a deferred block, emitted in whatever scope is current. */
    method EmitPlain(stmts: seq<Stmt>)
      requires ListOk(stmts) && !DirectDefer(stmts) && !ListHasControlFlow(stmts) && StackSafe(scopes)
      modifies this
      ensures scopes == old(scopes)
      ensures functions == old(functions) + TextList(WeavePlain(stmts))
      decreases 0, ListSize(stmts), 3
    {
      ghost var all := functions + TextList(WeavePlain(stmts));
      var i := 0;
      assert stmts[0..] == stmts;
      while i < |stmts|
        invariant 0 <= i <= |stmts| && scopes == old(scopes)
        invariant ListOk(stmts[i..]) && !ListHasControlFlow(stmts[i..])
        invariant ListSize(stmts[i..]) <= ListSize(stmts)
        invariant functions + TextList(WeavePlain(stmts[i..])) == all
      {
        StepSizes(stmts, i, []);
        PlainText(stmts, i, functions);
        SameStmt(stmts[i], scopes, []);
        Visit(stmts[i]);
        i := i + 1;
      }
      assert stmts[i..] == [];
    }

    /** emit_all_remaining_defers. */
    method EmitAllRemaining()
      requires StackSafe(scopes)
      modifies this
      ensures scopes == old(scopes)
      ensures functions == old(functions) + TextList(WeaveAll(scopes))
      decreases 0, StackSize(scopes), 6
    {
      ghost var all := functions + TextList(WeaveAll(scopes));
      var i := |scopes|;
      assert scopes[..i] == scopes;
      while i > 0
        invariant 0 <= i <= |scopes| && scopes == old(scopes)
        invariant functions + TextList(WeaveAll(scopes[..i])) == all
        invariant StackSize(scopes[..i]) <= StackSize(scopes)
      {
        i := i - 1;
        PrefixOfStack(scopes, i);
        AllText(scopes, i, functions);
        EmitScopeDefers(i);
      }
    }

    /** visit(break_c), visit(continue_c): find_enclosing_loop_scope, then the scopes inside it. */
    method EmitToLoop()
      requires StackSafe(scopes)
      modifies this
      ensures scopes == old(scopes)
      ensures functions == old(functions) + TextList(WeaveToLoop(scopes))
      decreases 0, StackSize(scopes), 6
    {
      var loopScope := FindEnclosingLoopScope();
      ghost var all := functions + TextList(WeaveToLoop(scopes));
      var i := |scopes| - 1;
      assert scopes[..i + 1] == scopes;
      while i != loopScope
        invariant loopScope <= i < |scopes| && scopes == old(scopes)
        invariant functions + TextList(WeaveToLoop(scopes[..i + 1])) == all
        invariant StackSize(scopes[..i + 1]) <= StackSize(scopes)
      {
        PrefixOfStack(scopes, i);
        ToLoopText(scopes, i, functions);
        EmitScopeDefers(i);
        i := i - 1;
      }
      if loopScope >= 0 {
        ToLoopText(scopes, loopScope, functions);
      }
    }

    /** The index of the innermost loop scope, or -1. */
    method FindEnclosingLoopScope() returns (k: int)
      ensures -1 <= k < |scopes|
      ensures k >= 0 ==> scopes[k].kind.LoopScope?
      ensures forall j :: k < j < |scopes| ==> !scopes[j].kind.LoopScope?
    {
      k := |scopes| - 1;
      while k >= 0 && !scopes[k].kind.LoopScope?
        invariant -1 <= k < |scopes|
        invariant forall j :: k < j < |scopes| ==> !scopes[j].kind.LoopScope?
      {
        k := k - 1;
      }
    }

    /** The body of a function: its braces hold the text of the woven program, in a variadic function between the
        lines for its arguments. */
    method EmitFunctionBody(body: seq<Stmt>, va: Option<VaLines>)
      requires ListOk(body) && scopes == []
      modifies this
      ensures scopes == [] && functions == old(functions) + Braces(TextList(WeaveVariadic(body, va)))
    {
      ghost var before := functions;
      functions := functions + [FOpen];
      if va.Some? {
        functions := functions + [FAct(va.value.list), FAct(va.value.start)];
      }
      VisitScope(body, FunctionScope);
      if va.Some? {
        functions := functions + [FAct(va.value.end)];
      }
      functions := functions + [FClose];
      VariadicText(body, va, before);
    }
  }

  lemma VariadicText(body: seq<Stmt>, va: Option<VaLines>, f: seq<Fragment>)
    ensures f + Braces(TextList(WeaveVariadic(body, va)))
            == f + [FOpen] + (if va.Some? then [FAct(va.value.list), FAct(va.value.start)] else [])
               + TextList(WeaveFunction(body)) + (if va.Some? then [FAct(va.value.end)] else []) + [FClose]
  {
    hide WeaveFunction;
    if va.Some? {
      var a, b, c := [TAct(va.value.list), TAct(va.value.start)], WeaveFunction(body), [TAct(va.value.end)];
      TextAppend(a + b, c);
      TextAppend(a, b);
      TextOne(c[0]);
      assert a[1..] == [TAct(va.value.start)];
      TextOne(a[1]);
      assert TextList(a) == [FAct(va.value.list), FAct(va.value.start)];
    }
  }

  lemma Registered(s: Stmt, sc: seq<Scope>)
    requires WellFormed(s) && StackSafe(sc) && sc != []
    ensures s.Defer? ==> StackSafe(Register(sc, s.code))
    ensures s.Defer? ==> Outer(Register(sc, s.code)) == Outer(sc)
    ensures s.Defer? ==> Top(Register(sc, s.code)).defers == Top(sc).defers + [s.code]
  {
    if s.Defer? {
      RegisterSize(sc, s.code);
      assert CodeOk(s.code) && !CodeHasControlFlow(s.code);
    }
  }
}
