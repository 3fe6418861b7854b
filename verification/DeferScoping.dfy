/** Laws of scoping: which declaration a name denotes, in the source and in the emitted C. */
module DeferScoping {
  import opened Options
  import opened DeferSyntax
  import opened DeferTarget
  import opened DeferNames

  lemma {:induction false} LookupBehind(env: Seen, own: Seen, x: string, id: nat)
    requires forall i :: 0 <= i < |own| ==> own[i].id == id
    ensures Lookup(env + own, x) == if exists i :: 0 <= i < |own| && own[i].name == x then Some(id) else Lookup(env, x)
    decreases |own|
  {
    if own == [] {
      assert env + own == env;
    } else {
      var k := |own| - 1;
      assert (env + own)[..|env| + k] == env + own[..k];
      LookupBehind(env, own[..k], x, id);
    }
  }

  /** Behind a declaration each name it declares denotes it, and every other name what it did before. */
  lemma DeclarationIsSeen(env: Seen, d: Expr, x: string)
    ensures Lookup(env + Decls(d), x) == if x in d.declares then Some(d.id) else Lookup(env, x)
  {
    LookupBehind(env, Decls(d), x, d.id);
    assert forall i :: 0 <= i < |d.declares| ==> Decls(d)[i].name == d.declares[i];
  }

  lemma TwoStatements(a: Stmt, b: Stmt, env: Seen)
    ensures ResolveList([a, b], env) == [Resolve(a, env), Resolve(b, After(a, env))]
  {
    var ss := [a, b];
    assert ss[1..] == [b] && [b][1..] == [];
    assert ResolveList([b], After(a, env)) == [Resolve(b, After(a, env))];
  }

  lemma TwoInC(a: Target, b: Target, env: Seen)
    ensures ResolveCList([a, b], env) == [ResolveC(a, env), ResolveC(b, AfterC(a, env))]
  {
    var ts := [a, b];
    assert ts[1..] == [b] && [b][1..] == [];
    assert ResolveCList([b], AfterC(a, env)) == [ResolveC(b, AfterC(a, env))];
  }

  /** In a list of statements: the next one sees the declaration, the declaration itself does not. */
  lemma NextSeesDeclaration(env: Seen, d: Expr, u: Expr, x: string)
    ensures var ss := ResolveList([Action(d), Action(u)], env);
            && |ss| == 2 && ss[0] == Action(Bind(d, env)) && ss[1].Action?
            && (x in u.uses && x in d.declares ==> x in ss[1].a.binds && ss[1].a.binds[x] == d.id)
            && (x !in d.declares ==>
                  (x in ss[1].a.binds <==> x in Bind(u, env).binds)
                  && (x in ss[1].a.binds ==> ss[1].a.binds[x] == Bind(u, env).binds[x]))
  {
    DeclarationIsSeen(env, d, x);
    TwoStatements(Action(d), Action(u), env);
  }

  /** What a block declares is gone behind it. */
  lemma BlockEndsScope(env: Seen, body: seq<Stmt>, s: Stmt)
    ensures ResolveList([Block(body), s], env) == [Block(ResolveList(body, env)), Resolve(s, env)]
  {
    TwoStatements(Block(body), s, env);
  }

  /** The initialiser of a `for` declares for the rest of the loop, like a declaration in front of it. */
  lemma InitialiserIsInFront(env: Seen, init: Expr, test: Option<Expr>, step: Option<Expr>, body: seq<Stmt>)
    ensures var loop := Resolve(For(Some(init), test, step, body), env);
            var apart := ResolveList([Action(init), For(None, test, step, body)], env);
            && |apart| == 2 && loop.For? && loop.init.Some?
            && apart == [Action(loop.init.value), For(None, loop.test, loop.post, loop.body)]
  {
    TwoStatements(Action(init), For(None, test, step, body), env);
  }

  /** So it does in C. */
  lemma InitialiserIsInFrontInC(env: Seen, init: Expr, test: Option<Expr>, step: Option<Expr>, body: seq<Target>)
    ensures var loop := ResolveC(TFor(Some(init), test, step, body), env);
            var apart := ResolveCList([TAct(init), TFor(None, test, step, body)], env);
            && |apart| == 2 && loop.TFor? && loop.init.Some?
            && apart == [TAct(loop.init.value), TFor(None, loop.test, loop.post, loop.body)]
  {
    TwoInC(TAct(init), TFor(None, test, step, body), env);
  }

  /** A `for` without initialiser and step is a `while`. */
  lemma BareForIsWhile(env: Seen, test: Expr, body: seq<Stmt>)
    ensures var loop, plain := Resolve(For(None, Some(test), None, body), env), Resolve(While(test, body), env);
            loop == For(None, Some(plain.cond), None, plain.body)
  {}
}
