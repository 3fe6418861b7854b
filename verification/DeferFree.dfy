/** Free names: which names of a statement are looked up outside of it, and how the choice of that outside decides
    whether written code keeps its bindings. */
module DeferFree {
  import opened Options
  import opened DeferSyntax
  import opened DeferNames

  // ----- declarations that can be seen -----

  function Names(env: Seen): set<string> {
    set i | 0 <= i < |env| :: env[i].name
  }

  function Ids(env: Seen): set<nat> {
    set i | 0 <= i < |env| :: env[i].id
  }

  lemma NoDeclarations()
    ensures Names([]) == {} && Ids([]) == {}
  {}

  lemma Together(a: Seen, b: Seen)
    ensures Names(a + b) == Names(a) + Names(b) && Ids(a + b) == Ids(a) + Ids(b)
  {
    forall i | 0 <= i < |a| ensures a[i].name in Names(a + b) && a[i].id in Ids(a + b) {
      assert a[i] == (a + b)[i];
    }
    forall i | 0 <= i < |b| ensures b[i].name in Names(a + b) && b[i].id in Ids(a + b) {
      assert b[i] == (a + b)[|a| + i];
    }
    forall i | 0 <= i < |a + b| ensures (a + b)[i].name in Names(a) + Names(b) && (a + b)[i].id in Ids(a) + Ids(b) {
      assert (a + b)[i] == if i < |a| then a[i] else b[i - |a|];
    }
  }

  lemma {:induction false} LookupFinds(env: Seen, x: string)
    ensures Lookup(env, x).Some? <==> x in Names(env)
    ensures Lookup(env, x).Some? ==> Lookup(env, x).value in Ids(env)
  {
    if env != [] {
      var front, last := env[..|env| - 1], [env[|env| - 1]];
      assert env == front + last;
      LookupFinds(front, x);
      Together(front, last);
      assert last[0].name in Names(last) && last[0].id in Ids(last);
    }
  }

  /** What is declared later hides what was declared before. */
  lemma {:induction false} LookupTogether(a: Seen, b: Seen, x: string)
    ensures Lookup(a + b, x) == if x in Names(b) then Lookup(b, x) else Lookup(a, x)
  {
    if b == [] {
      assert a + b == a;
    } else {
      var front, last := b[..|b| - 1], [b[|b| - 1]];
      assert (a + b)[..|a + b| - 1] == a + front && b == front + last;
      LookupTogether(a, front, x);
      Together(front, last);
      assert last[0].name in Names(last);
    }
  }

  function DeclaredBy(e: Expr): set<string> {
    set x | x in e.declares
  }

  lemma DeclsOf(e: Expr)
    ensures Names(Decls(e)) == DeclaredBy(e)
    ensures Ids(Decls(e)) == if e.declares == [] then {} else {e.id}
  {
    var d := Decls(e);
    forall x | x in e.declares ensures x in Names(d) {
      var i :| 0 <= i < |e.declares| && e.declares[i] == x;
      assert d[i].name == x;
    }
    if e.declares != [] {
      assert d[0].id in Ids(d);
    }
  }

  /** The names denote the same in both. */
  predicate Alike(p: Seen, q: Seen, xs: set<string>) {
    forall x :: x in xs ==> Lookup(p, x) == Lookup(q, x)
  }

  lemma AlikeNone(p: Seen, q: Seen, xs: set<string>)
    ensures Alike(p, q, {}) && Alike(p, q, {} - xs)
  {}

  lemma AlikeUnion(p: Seen, q: Seen, xs: set<string>, ys: set<string>)
    ensures Alike(p, q, xs + ys) <==> Alike(p, q, xs) && Alike(p, q, ys)
  {
    if Alike(p, q, xs + ys) {
      assert forall x :: x in xs ==> x in xs + ys;
      assert forall y :: y in ys ==> y in xs + ys;
    }
  }

  lemma BindAlike(e: Expr, p: Seen, q: Seen)
    ensures Bind(e, p) == Bind(e, q) <==> Alike(p, q, e.uses)
  {
    var l, r := Bind(e, p).binds, Bind(e, q).binds;
    if Bind(e, p) == Bind(e, q) {
      forall x | x in e.uses ensures Lookup(p, x) == Lookup(q, x) {
        assert x in l <==> x in r;
        if x in l {
          assert l[x] == r[x];
        }
      }
    }
    if Alike(p, q, e.uses) {
      assert l == r;
    }
  }

  /** The same declarations behind both hide the names they declare. */
  lemma AlikeBehind(p: Seen, q: Seen, d: Seen, xs: set<string>)
    ensures Alike(p + d, q + d, xs) <==> Alike(p, q, xs - Names(d))
  {
    forall x | x in xs
      ensures Lookup(p + d, x) == Lookup(q + d, x) <==> x in Names(d) || Lookup(p, x) == Lookup(q, x)
    {
      LookupTogether(p, d, x);
      LookupTogether(q, d, x);
    }
    if Alike(p, q, xs - Names(d)) {
      forall x | x in xs ensures Lookup(p + d, x) == Lookup(q + d, x) {
        assert x in Names(d) || x in xs - Names(d);
      }
    }
  }

  /** Names looked up where more has been declared, of which nothing was known before. */
  lemma AlikeFurther(p: Seen, more: Seen, xs: set<string>)
    requires Ids(more) !! Ids(p)
    ensures Alike(p, p + more, xs) <==> xs !! Names(more)
  {
    forall x | x in xs ensures Lookup(p, x) == Lookup(p + more, x) <==> x !in Names(more) {
      LookupTogether(p, more, x);
      LookupFinds(p, x);
      LookupFinds(more, x);
    }
  }

  /** Code known where `a + d` could be seen, written where `b + d + more` can be seen. */
  lemma AlikeAcross(a: Seen, b: Seen, d: Seen, more: Seen, xs: set<string>)
    requires Ids(more) !! Ids(a + d)
    ensures Alike(a + d, b + (d + more), xs) <==> Alike(a + d, a + (d + more), xs) && Alike(a, b, xs - Names(d))
  {
    assert a + (d + more) == (a + d) + more && b + (d + more) == (b + d) + more;
    AlikeFurther(a + d, more, xs);
    AlikeBehind(a, b, d, xs);
    forall x | x in xs
      ensures Lookup(a + d, x) == Lookup(b + (d + more), x) <==> x !in Names(more) && Lookup(a + d, x) == Lookup(b + d, x)
    {
      LookupTogether(b + d, more, x);
      LookupFinds(a + d, x);
      LookupFinds(more, x);
    }
  }

  // ----- free names -----

  function OptUses(e: Option<Expr>): set<string> {
    if e.Some? then e.value.uses else {}
  }

  function OptDeclares(e: Option<Expr>): set<string> {
    if e.Some? then DeclaredBy(e.value) else {}
  }

  function AllUses(es: seq<Expr>): set<string> {
    if es == [] then {} else es[0].uses + AllUses(es[1..])
  }

  function ReturnedUses(what: Returned): set<string> {
    match what
    case Void => {}
    case Call(e) => e.uses
    case Plain(e) => e.uses
    case Tuple(es) => AllUses(es)
  }

  function Declares(s: Stmt): set<string> {
    if s.Action? then DeclaredBy(s.a) else {}
  }

  function Free(s: Stmt): set<string>
    decreases s, 1
  {
    match s
    case Action(a) => a.uses
    case Defer(code) => FreeCode(code)
    case Block(body) => FreeList(body)
    case If(cond, thn, els) => cond.uses + FreeList(thn) + if els.Some? then Free(els.value) else {}
    case Match(scrutinee, arms) => scrutinee.uses + FreeArms(arms)
    case While(cond, body) => cond.uses + FreeList(body)
    case For(init, test, post, body) =>
      OptUses(init) + (OptUses(test) + OptUses(post) + FreeList(body) - OptDeclares(init))
    case Return(what) => ReturnedUses(what)
    case Break => {}
    case Continue => {}
  }

  function FreeList(ss: seq<Stmt>): set<string>
    decreases ss, 0
  {
    if ss == [] then {} else Free(ss[0]) + (FreeList(ss[1..]) - Declares(ss[0]))
  }

  function FreeArms(arms: Arms): set<string>
    decreases arms, 0
  {
    if arms.NoArms? then {} else OptUses(arms.pattern) + Free(arms.body) + FreeArms(arms.rest)
  }

  function FreeCode(c: Code): set<string>
    decreases c, 0
  {
    match c
    case Single(a) => a.uses
    case Braced(stmts) => FreeList(stmts)
  }

  // ----- the free names are those that depend on the outside -----

  lemma OptAlike(e: Option<Expr>, p: Seen, q: Seen)
    ensures BindOpt(e, p) == BindOpt(e, q) <==> Alike(p, q, OptUses(e))
  {
    if e.Some? {
      BindAlike(e.value, p, q);
    }
  }

  lemma {:induction false} BindAllAlike(es: seq<Expr>, p: Seen, q: Seen)
    ensures BindAll(es, p) == BindAll(es, q) <==> Alike(p, q, AllUses(es))
  {
    hide Bind, Alike;
    if es == [] {
      AlikeNone(p, q, {});
    } else {
      BindAlike(es[0], p, q);
      BindAllAlike(es[1..], p, q);
      AlikeUnion(p, q, es[0].uses, AllUses(es[1..]));
      assert BindAll(es, p) == [Bind(es[0], p)] + BindAll(es[1..], p);
      assert BindAll(es, q) == [Bind(es[0], q)] + BindAll(es[1..], q);
    }
  }

  lemma ReturnedAlike(what: Returned, p: Seen, q: Seen)
    ensures BindReturned(what, p) == BindReturned(what, q) <==> Alike(p, q, ReturnedUses(what))
  {
    hide Bind, BindAll;
    match what
    case Void =>
    case Call(e) => BindAlike(e, p, q);
    case Plain(e) => BindAlike(e, p, q);
    case Tuple(es) => BindAllAlike(es, p, q);
  }

  lemma BehindStatement(s: Stmt, p: Seen, q: Seen, xs: set<string>)
    ensures Alike(After(s, p), After(s, q), xs) <==> Alike(p, q, xs - Declares(s))
  {
    hide Decls;
    if s.Action? {
      AlikeBehind(p, q, Decls(s.a), xs);
      DeclsOf(s.a);
    } else {
      assert xs - Declares(s) == xs;
    }
  }

  lemma BehindInit(init: Option<Expr>, p: Seen, q: Seen, xs: set<string>)
    ensures Alike(AfterInit(init, p), AfterInit(init, q), xs) <==> Alike(p, q, xs - OptDeclares(init))
  {
    hide Decls;
    if init.Some? {
      AlikeBehind(p, q, Decls(init.value), xs);
      DeclsOf(init.value);
    } else {
      assert xs - OptDeclares(init) == xs;
    }
  }

  lemma Alike3(p: Seen, q: Seen, xs: set<string>, ys: set<string>, zs: set<string>)
    ensures Alike(p, q, xs + ys + zs) <==> Alike(p, q, xs) && Alike(p, q, ys) && Alike(p, q, zs)
  {
    AlikeUnion(p, q, xs + ys, zs);
    AlikeUnion(p, q, xs, ys);
  }

  lemma {:induction false} StmtAlike(s: Stmt, p: Seen, q: Seen)
    ensures Resolve(s, p) == Resolve(s, q) <==> Alike(p, q, Free(s))
    decreases s, 1
  {
    hide Alike, Bind, BindOpt, OptUses, OptDeclares, AfterInit, BindReturned, ReturnedUses, ResolveList, FreeList,
      ResolveArms, FreeArms, ResolveCode, FreeCode;
    match s
    case Action(a) => BindAlike(a, p, q);
    case Defer(code) => CodeAlike(code, p, q);
    case Block(body) => ListAlike(body, p, q);
    case If(cond, thn, els) =>
      BindAlike(cond, p, q);
      ListAlike(thn, p, q);
      if els.Some? {
        StmtAlike(els.value, p, q);
        Alike3(p, q, cond.uses, FreeList(thn), Free(els.value));
      } else {
        AlikeUnion(p, q, cond.uses, FreeList(thn));
        assert cond.uses + FreeList(thn) + {} == cond.uses + FreeList(thn);
      }
    case Match(scrutinee, arms) =>
      BindAlike(scrutinee, p, q);
      ArmsAlike(arms, p, q);
      AlikeUnion(p, q, scrutinee.uses, FreeArms(arms));
    case While(cond, body) =>
      BindAlike(cond, p, q);
      ListAlike(body, p, q);
      AlikeUnion(p, q, cond.uses, FreeList(body));
    case For(init, test, post, body) => ForAlike(init, test, post, body, p, q);
    case Return(what) => ReturnedAlike(what, p, q);
    case Break => AlikeNone(p, q, {});
    case Continue => AlikeNone(p, q, {});
  }

  lemma {:induction false} ForAlike(init: Option<Expr>, test: Option<Expr>, post: Option<Expr>, body: seq<Stmt>, p: Seen,
                                    q: Seen)
    ensures var s := For(init, test, post, body); Resolve(s, p) == Resolve(s, q) <==> Alike(p, q, Free(s))
    decreases body, 2
  {
    hide Alike, Bind, BindOpt, OptUses, OptDeclares, AfterInit, ResolveList, FreeList;
    var p', q' := AfterInit(init, p), AfterInit(init, q);
    OptAlike(init, p, q);
    OptAlike(test, p', q');
    OptAlike(post, p', q');
    ListAlike(body, p', q');
    Alike3(p', q', OptUses(test), OptUses(post), FreeList(body));
    BehindInit(init, p, q, OptUses(test) + OptUses(post) + FreeList(body));
    AlikeUnion(p, q, OptUses(init), OptUses(test) + OptUses(post) + FreeList(body) - OptDeclares(init));
  }

  lemma {:induction false} ListAlike(ss: seq<Stmt>, p: Seen, q: Seen)
    ensures ResolveList(ss, p) == ResolveList(ss, q) <==> Alike(p, q, FreeList(ss))
    decreases ss, 0
  {
    hide Alike, Resolve, Free, After, Declares;
    if ss == [] {
      AlikeNone(p, q, {});
    } else {
      StmtAlike(ss[0], p, q);
      ListAlike(ss[1..], After(ss[0], p), After(ss[0], q));
      BehindStatement(ss[0], p, q, FreeList(ss[1..]));
      AlikeUnion(p, q, Free(ss[0]), FreeList(ss[1..]) - Declares(ss[0]));
      var l, r := ResolveList(ss, p), ResolveList(ss, q);
      assert l == [l[0]] + l[1..] && r == [r[0]] + r[1..];
    }
  }

  lemma {:induction false} ArmsAlike(arms: Arms, p: Seen, q: Seen)
    ensures ResolveArms(arms, p) == ResolveArms(arms, q) <==> Alike(p, q, FreeArms(arms))
    decreases arms, 0
  {
    hide Alike, Resolve, Free, BindOpt, OptUses;
    if arms.Arm? {
      OptAlike(arms.pattern, p, q);
      StmtAlike(arms.body, p, q);
      ArmsAlike(arms.rest, p, q);
      Alike3(p, q, OptUses(arms.pattern), Free(arms.body), FreeArms(arms.rest));
    } else {
      AlikeNone(p, q, {});
    }
  }

  /** Deferred code names the same declarations in two places exactly when its free names do. */
  lemma {:induction false} CodeAlike(c: Code, p: Seen, q: Seen)
    ensures ResolveCode(c, p) == ResolveCode(c, q) <==> Alike(p, q, FreeCode(c))
    decreases c, 0
  {
    hide Alike, Bind, ResolveList, FreeList;
    match c
    case Single(a) => BindAlike(a, p, q);
    case Braced(stmts) => ListAlike(stmts, p, q);
  }

  // ----- every declaration has an identity of its own -----

  predicate NewExpr(e: Expr, env: Seen) {
    e.declares != [] ==> e.id !in Ids(env)
  }

  /** No declaration has the identity of one that can be seen where it stands. */
  predicate New(s: Stmt, env: Seen)
    decreases s, 1
  {
    match s
    case Action(a) => NewExpr(a, env)
    case Defer(code) => NewCode(code, env)
    case Block(body) => NewList(body, env)
    case If(_, thn, els) => NewList(thn, env) && (els.Some? ==> New(els.value, env))
    case Match(_, arms) => NewArms(arms, env)
    case While(_, body) => NewList(body, env)
    case For(init, _, _, body) => (init.Some? ==> NewExpr(init.value, env)) && NewList(body, AfterInit(init, env))
    case _ => true
  }

  predicate NewList(ss: seq<Stmt>, env: Seen)
    decreases ss, 0
  {
    ss == [] || (New(ss[0], env) && NewList(ss[1..], After(ss[0], env)))
  }

  predicate NewArms(arms: Arms, env: Seen)
    decreases arms, 0
  {
    arms.Arm? ==> New(arms.body, env) && NewArms(arms.rest, env)
  }

  predicate NewCode(c: Code, env: Seen)
    decreases c, 0
  {
    c.Braced? ==> NewList(c.stmts, env)
  }

  /** Deferred code as it waits while `env` can be seen: nothing declared since shares its identity with what was
      seen at the `defer`. */
  predicate Waits(p: Pending, env: Seen) {
    && p.at <= env && Ids(env[|p.at|..]) !! Ids(p.at)
    && CodeOk(p.code) && NewCode(p.code, p.at)
  }

  predicate AllWait(ps: seq<Pending>, env: Seen) {
    forall i :: 0 <= i < |ps| ==> Waits(ps[i], env)
  }

  lemma WaitsFurther(p: Pending, env: Seen, more: Seen)
    requires Waits(p, env) && Ids(more) !! Ids(env)
    ensures Waits(p, env + more)
  {
    hide CodeOk, NewCode, Ids;
    assert env == p.at + env[|p.at|..];
    Together(p.at, env[|p.at|..]);
    assert (env + more)[|p.at|..] == env[|p.at|..] + more;
    Together(env[|p.at|..], more);
  }

  lemma AllWaitFurther(ps: seq<Pending>, env: Seen, more: Seen)
    requires AllWait(ps, env) && Ids(more) !! Ids(env)
    ensures AllWait(ps, env + more)
  {
    hide Waits;
    forall i | 0 <= i < |ps| ensures Waits(ps[i], env + more) {
      WaitsFurther(ps[i], env, more);
    }
  }
}
