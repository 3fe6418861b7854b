/** A captured name: a function whose deferred code changes another variable in the emitted C than in the source. */
module DeferShadowing {
  import opened Options
  import opened DeferSyntax
  import opened DeferSource
  import opened DeferTarget
  import opened DeferWeaving
  import opened DeferProof
  import opened DeferNames
  import opened DeferBinding
  import opened DeferFree
  import opened DeferCapture

  /** A state holds a value for each declaration. A declaration gives its variable what its initialiser denotes by `x`,
      or else the number it is known by, and any other action adds ten to what its `x` denotes. */
  function Act(a: Expr, st: map<nat, int>): map<nat, int> {
    if a.declares != [] then st[a.id := if "x" in a.binds then ValueOf(a, st) else a.id]
    else if "x" in a.binds then st[a.binds["x"] := ValueOf(a, st) + 10]
    else st
  }

  const Variables: Env<map<nat, int>, int> := Env(
    (a: Expr, st: map<nat, int>) => Act(a, st),
    (t: Expr, st: map<nat, int>) => (true, st),
    (e: Expr, st: map<nat, int>) => (ValueOf(e, st), st),
    (p: Expr, v: int, st: map<nat, int>) => (true, st))

  /** What the `x` of an expression denotes; 0 stands for whatever C finds in a variable that has no value yet. */
  function ValueOf(e: Expr, st: map<nat, int>): int {
    if "x" in e.binds && e.binds["x"] in st then st[e.binds["x"]] else 0
  }

  function DeclareX(id: nat): Expr { Expr(id, {}, ["x"], true, map[]) }

  function UseX(id: nat): Expr { Expr(id, {"x"}, [], false, map[]) }

  /** `var x = 1; defer x = x + 10; { var x = 5; return x; }` */
  const Shadowing: seq<Stmt> :=
    [Action(DeclareX(1)), Defer(Single(UseX(2))), Block([Action(DeclareX(5)), Return(Plain(UseX(3)))])]

  /** `x`, resolved to the declaration `id`. */
  function Bound(e: nat, id: nat): Expr { UseX(e).(binds := map["x" := id]) }

  lemma DeclaresX(k: nat, env: Seen)
    ensures Bind(DeclareX(k), env) == BindC(DeclareX(k), env) == DeclareX(k)
    ensures Decls(DeclareX(k)) == [Decl("x", k)]
  {
    assert Bind(DeclareX(k), env).binds == map[] && BindC(DeclareX(k), env).binds == map[];
  }

  lemma UsesX(e: nat, k: nat, env: Seen)
    ensures Bind(UseX(e), env + [Decl("x", k)]) == BindC(UseX(e), env + [Decl("x", k)]) == Bound(e, k)
  {
    assert Decls(UseX(e)) == [];
    assert Bind(UseX(e), env + [Decl("x", k)]).binds == map["x" := k];
  }

  const InnerBody: seq<Stmt> := [Action(DeclareX(5)), Return(Plain(UseX(3)))]

  const InnerResolved: seq<Stmt> := [Action(DeclareX(5)), Return(Plain(Bound(3, 5)))]

  lemma InnerIsResolved()
    ensures ResolveList(InnerBody, [Decl("x", 1)]) == InnerResolved
  {
    hide Bind, Decls;
    var x1, x5 := [Decl("x", 1)], [Decl("x", 5)];
    var last := [Return(Plain(UseX(3)))];
    assert InnerBody[1..] == last && last[1..] == [];
    DeclaresX(5, x1);
    UsesX(3, 5, x1);
    assert ResolveList(last, x1 + x5) == [Return(Plain(Bound(3, 5)))];
  }

  lemma ShadowingResolved()
    ensures ResolveList(Shadowing, []) == [Action(DeclareX(1)), Defer(Single(Bound(2, 1))), Block(InnerResolved)]
  {
    hide Bind, Decls;
    var x1 := [Decl("x", 1)];
    var last := [Block(InnerBody)];
    assert Shadowing[1..][1..] == last && last[1..] == [];
    DeclaresX(1, []);
    assert [] + x1 == x1;
    UsesX(2, 1, []);
    InnerIsResolved();
    assert ResolveList(last, x1) == [Block(InnerResolved)];
    assert ResolveList(Shadowing[1..], x1) == [Defer(Single(Bound(2, 1)))] + [Block(InnerResolved)];
  }

  const InnerText: seq<Target> := [TAct(DeclareX(5)), TAct(UseX(2)), TReturn(UseX(3))]

  lemma InnerIsWoven()
    ensures WeaveScope(InnerBody, BlockScope, [Scope(FunctionScope, [Single(UseX(2))])]) == InnerText
  {
    var outer := [Scope(FunctionScope, [Single(UseX(2))])];
    var sc := outer + [Scope(BlockScope, [])];
    var last := [Return(Plain(UseX(3)))];
    assert InnerBody[1..] == last && last[1..] == [];
    assert Outer(sc) == outer && Outer(outer) == [] && Top(outer).defers[..0] == [];
    assert WeaveAll(outer) == [TAct(UseX(2))];
    assert WeaveAll(sc) == [TAct(UseX(2))];
    assert WeaveList(last, sc) == [TAct(UseX(2)), TReturn(UseX(3))];
  }

  lemma ShadowingWoven()
    ensures WeaveFunction(Shadowing) == [TAct(DeclareX(1)), TBlock(InnerText), TAct(UseX(2))]
  {
    hide WeaveScope;
    var none, sc := [Scope(FunctionScope, [])], [Scope(FunctionScope, [Single(UseX(2))])];
    var last := [Block(InnerBody)];
    assert Shadowing[1..][1..] == last && last[1..] == [];
    var no: seq<Code> := [];
    assert no + [Single(UseX(2))] == [Single(UseX(2))] && Outer(none) == [];
    assert Register(none, Single(UseX(2))) == sc;
    InnerIsWoven();
    assert Top(sc).defers[..0] == [];
    assert WeaveList(last, sc) == [TBlock(InnerText)] + [TAct(UseX(2))];
    assert WeaveList(Shadowing[1..], none) == WeaveList(last, sc);
    assert WeaveList(Shadowing, none) == [TAct(DeclareX(1))] + WeaveList(last, sc);
    WovenFrom(Shadowing);
  }

  lemma WovenFrom(body: seq<Stmt>)
    ensures WeaveFunction(body) == WeaveList(body, [Scope(FunctionScope, [])])
  {
    hide WeaveList;
    var none: seq<Scope> := [];
    assert none + [Scope(FunctionScope, [])] == [Scope(FunctionScope, [])];
  }

  const InnerInC: seq<Target> := [TAct(DeclareX(5)), TAct(Bound(2, 5)), TReturn(Bound(3, 5))]

  lemma InnerReadInC()
    ensures ResolveCList(InnerText, [Decl("x", 1)]) == InnerInC
  {
    hide Bind, BindC, Decls;
    var x1, x5 := [Decl("x", 1)], [Decl("x", 5)];
    var rest, last := [TAct(UseX(2)), TReturn(UseX(3))], [TReturn(UseX(3))];
    assert InnerText[1..] == rest && rest[1..] == last;
    DeclaresX(5, x1);
    UsesX(2, 5, x1);
    UsesX(3, 5, x1);
    NothingMore(UseX(2), x1 + x5);
    OneC(last[0], x1 + x5);
    assert ResolveCList(rest, x1 + x5) == [TAct(Bound(2, 5))] + [TReturn(Bound(3, 5))];
  }

  lemma ShadowingInC()
    ensures ResolveCList(WeaveFunction(Shadowing), []) == [TAct(DeclareX(1)), TBlock(InnerInC), TAct(Bound(2, 1))]
  {
    hide Bind, BindC, Decls, WeaveFunction;
    ShadowingWoven();
    var x1 := [Decl("x", 1)];
    var text, rest, last := WeaveFunction(Shadowing), [TBlock(InnerText), TAct(UseX(2))], [TAct(UseX(2))];
    assert text[1..] == rest && rest[1..] == last;
    DeclaresX(1, []);
    assert [] + x1 == x1;
    UsesX(2, 1, []);
    InnerReadInC();
    OneC(last[0], x1);
    assert ResolveCList(rest, x1) == [TBlock(InnerInC)] + [TAct(Bound(2, 1))];
  }

  lemma NothingMore(e: Expr, env: Seen)
    requires e.declares == []
    ensures AfterC(TAct(e), env) == env
  {
    assert Decls(e) == [];
  }

  lemma ShadowingIsOrdinary()
    ensures ListOk(Shadowing) && NewList(Shadowing, [])
  {
    var x1 := [Decl("x", 1)];
    var last := [Block(InnerBody)];
    assert Shadowing[1..][1..] == last && last[1..] == [] && InnerBody[1..][1..] == [];
    assert ListOk(InnerBody) && WellFormed(last[0]) && ListOk(last);
    DeclaresX(1, []);
    assert [] + x1 == x1;
    assert forall i :: i in Ids(x1) ==> i == 1;
    assert NewList(InnerBody[1..], After(InnerBody[0], x1));
    assert NewList(InnerBody, x1) && NewList(last, x1);
  }

  /** The deferred action adds ten to the variable it denotes. */
  lemma AddsTen(k: nat, st: map<nat, int>)
    requires k in st
    ensures Variables.act(Bound(2, k), st) == st[k := st[k] + 10]
  {
    var e := Bound(2, k);
    assert e.declares == [] && "x" in e.binds && e.binds["x"] == k;
    assert ValueOf(e, st) == st[k];
  }

  lemma SourceRun()
    ensures ExecFunction(Variables, Documented, 0,
              [Action(DeclareX(1)), Defer(Single(Bound(2, 1))), Block(InnerResolved)], map[])
            == Done(Returns([5]), map[1 := 11, 5 := 5])
  {
    var body := [Action(DeclareX(1)), Defer(Single(Bound(2, 1))), Block(InnerResolved)];
    var pending, last := [Single(Bound(2, 1))], [Block(InnerResolved)];
    assert body[1..][1..] == last && [] + pending == pending;
    InnerRun();
    PendingRun();
    assert ExecList(Variables, Documented, 0, last, FunctionScope, pending, map[1 := 1])
        == Done(Late(Bound(3, 5)), map[1 := 11, 5 := 5]);
    assert ExecList(Variables, Documented, 0, body[1..], FunctionScope, [], map[1 := 1])
        == Done(Late(Bound(3, 5)), map[1 := 11, 5 := 5]);
    var start: map<nat, int> := map[];
    assert Act(DeclareX(1), start) == map[1 := 1];
    assert Exec(Variables, Documented, 0, body[0], start) == Done(Normal, map[1 := 1]);
    assert ExecList(Variables, Documented, 0, body, FunctionScope, [], start)
        == Done(Late(Bound(3, 5)), map[1 := 11, 5 := 5]);
  }

  lemma InnerRun()
    ensures ExecList(Variables, Documented, 0, InnerResolved, BlockScope, [], map[1 := 1])
            == Done(Late(Bound(3, 5)), map[1 := 1, 5 := 5])
  {
    assert InnerResolved[1..] == [Return(Plain(Bound(3, 5)))];
  }

  lemma PendingRun()
    ensures RunPending(Variables, Documented, 0, [Single(Bound(2, 1))], map[1 := 1, 5 := 5])
            == Done(Normal, map[1 := 11, 5 := 5])
  {
    var st := map[1 := 1, 5 := 5];
    AddsTen(1, st);
    assert st[1 := 11] == map[1 := 11, 5 := 5];
    assert [Single(Bound(2, 1))][..0] == [];
  }

  lemma EmittedRun()
    ensures ExecTFunction(Variables, 0, [TAct(DeclareX(1)), TBlock(InnerInC), TAct(Bound(2, 1))], map[])
            == Done(Returns([15]), map[1 := 1, 5 := 15])
  {
    var body := [TAct(DeclareX(1)), TBlock(InnerInC), TAct(Bound(2, 1))];
    var st := map[1 := 1, 5 := 5];
    var rest, last := [TAct(Bound(2, 5)), TReturn(Bound(3, 5))], [TReturn(Bound(3, 5))];
    assert InnerInC[1..] == rest && rest[1..] == last && body[1..] == [TBlock(InnerInC), TAct(Bound(2, 1))];
    AddsTen(5, st);
    assert st[5 := 15] == map[1 := 1, 5 := 15];
    assert ExecTList(Variables, 0, last, [], map[1 := 1, 5 := 15]) == Done(Returns([15]), map[1 := 1, 5 := 15]);
    assert ExecTList(Variables, 0, rest, [], st) == Done(Returns([15]), map[1 := 1, 5 := 15]);
    assert ExecTList(Variables, 0, InnerInC, [], map[1 := 1]) == Done(Returns([15]), map[1 := 1, 5 := 15]);
    assert ExecTList(Variables, 0, body[1..], [], map[1 := 1]) == Done(Returns([15]), map[1 := 1, 5 := 15]);
    var start: map<nat, int> := map[];
    assert Act(DeclareX(1), start) == map[1 := 1];
    assert ExecT(Variables, 0, body[0], [], start) == Done(Normal, map[1 := 1]);
    assert ExecTList(Variables, 0, body, [], start) == Done(Returns([15]), map[1 := 1, 5 := 15]);
  }

  /** The source changes the outer variable and returns 5; the emitted C changes the inner one and returns 15. */
  lemma CapturedName()
    ensures ListOk(Shadowing) && NewList(Shadowing, []) && !AllKeep(FunctionPieces(Shadowing, []))
    ensures ExecFunction(Variables, Documented, 0, ResolveList(Shadowing, []), map[])
            == Done(Returns([5]), map[1 := 11, 5 := 5])
    ensures ExecTFunction(Variables, 0, ResolveCList(WeaveFunction(Shadowing), []), map[])
            == Done(Returns([15]), map[1 := 1, 5 := 15])
  {
    hide ListOk, NewList, AllKeep, FunctionPieces, ResolveList, ResolveCList, WeaveFunction;
    ShadowingIsOrdinary();
    NamesAreKeptExactly(Shadowing, []);
    ResolvedListOk(Shadowing, []);
    WeavingKeepsMeaning(Variables, 0, ResolveList(Shadowing, []), map[]);
    ShadowingResolved();
    ShadowingInC();
    SourceRun();
    EmittedRun();
  }

  // ----- a captured name behind a return -----

  /** `defer x = x + 10; return; var x = 5;` */
  const Unreached: seq<Stmt> := [Defer(Single(UseX(2))), Return(Void), Action(DeclareX(5))]

  const UnreachedInC: seq<Target> := [TAct(UseX(2)), TReturnVoid, TAct(DeclareX(5)), TAct(Bound(2, 5))]

  /** The copy at the end of the function is captured, but control never comes there: keeping every name is enough for
      the meaning, and not always needed. */
  lemma CaptureCanBeUnreached<S, V>(env: Env<S, V>, n: nat, st: S)
    ensures ListOk(Unreached) && NewList(Unreached, []) && !AllKeep(FunctionPieces(Unreached, []))
    ensures ExecTFunction(env, n, ResolveCList(WeaveFunction(Unreached), []), st)
            == ExecFunction(env, Documented, n, ResolveList(Unreached, []), st)
  {
    hide AllKeep, FunctionPieces, ResolveList, ResolveCList, WeaveFunction, ListOk, NewList, Bind;
    UnreachedIsOrdinary();
    NamesAreKeptExactly(Unreached, []);
    ResolvedListOk(Unreached, []);
    WeavingKeepsMeaning(env, n, ResolveList(Unreached, []), st);
    UnreachedResolved();
    UnreachedWoven(Unreached);
    UnreachedRead();
    assert Unreached[1..][1..] == [Action(DeclareX(5))];
    assert UnreachedInC[1..][0] == TReturnVoid;
    assert "x" in Bound(2, 5).binds && "x" !in UseX(2).binds;
    assert UnreachedInC[3] != TAct(UseX(2));
    var text := [TAct(UseX(2)), TReturnVoid, TAct(DeclareX(5)), TAct(UseX(2))];
    assert text[1..][0] == TReturnVoid;
  }

  lemma UnreachedIsOrdinary()
    ensures ListOk(Unreached) && NewList(Unreached, [])
  {
    assert Unreached[1..][1..] == [Action(DeclareX(5))] && [Action(DeclareX(5))][1..] == [];
    assert ListOk(Unreached[1..][1..]) && ListOk(Unreached[1..]);
    assert NewList(Unreached[1..][1..], []) && NewList(Unreached[1..], []);
  }

  lemma UnreachedResolved()
    ensures ResolveList(Unreached, []) == Unreached
  {
    hide Bind;
    DeclaresX(5, []);
    Unbound();
    assert Unreached[1..][1..] == [Action(DeclareX(5))] && [Action(DeclareX(5))][1..] == [];
    assert ResolveList([Action(DeclareX(5))], []) == [Action(DeclareX(5))];
    assert ResolveList(Unreached[1..], []) == [Return(Void)] + [Action(DeclareX(5))];
  }

  lemma Unbound()
    ensures Bind(UseX(2), []) == BindC(UseX(2), []) == UseX(2)
  {
    assert Decls(UseX(2)) == [];
    assert Bind(UseX(2), []).binds == map[];
  }

  lemma UnreachedWoven(body: seq<Stmt>)
    requires body == Unreached
    ensures WeaveFunction(body) == [TAct(UseX(2)), TReturnVoid, TAct(DeclareX(5)), TAct(UseX(2))]
  {
    hide WeaveFunction;
    var none, sc := [Scope(FunctionScope, [])], [Scope(FunctionScope, [Single(UseX(2))])];
    var last := [Action(DeclareX(5))];
    assert body[1..][1..] == last && last[1..] == [];
    var no: seq<Code> := [];
    assert no + [Single(UseX(2))] == [Single(UseX(2))] && Outer(none) == [] && Outer(sc) == [] && Top(sc).defers[..0] == [];
    assert Register(none, Single(UseX(2))) == sc;
    assert WeaveAll(sc) == [TAct(UseX(2))];
    assert WeaveList(last, sc) == [TAct(DeclareX(5)), TAct(UseX(2))];
    assert WeaveList(body[1..], sc) == [TAct(UseX(2)), TReturnVoid] + WeaveList(last, sc);
    WovenFrom(body);
  }

  lemma UnreachedRead()
    ensures ResolveCList([TAct(UseX(2)), TReturnVoid, TAct(DeclareX(5)), TAct(UseX(2))], []) == UnreachedInC
  {
    hide Bind, BindC, Decls;
    var text := [TAct(UseX(2)), TReturnVoid, TAct(DeclareX(5)), TAct(UseX(2))];
    var x5, rest, last := [Decl("x", 5)], [TAct(DeclareX(5)), TAct(UseX(2))], [TAct(UseX(2))];
    assert text[1..][1..] == rest && rest[1..] == last;
    Unbound();
    DeclaresX(5, []);
    assert [] + x5 == x5;
    UsesX(2, 5, []);
    NothingMore(UseX(2), []);
    OneC(last[0], x5);
    assert ResolveCList(rest, []) == [TAct(DeclareX(5))] + [TAct(Bound(2, 5))];
    assert ResolveCList(text[1..], []) == [TReturnVoid] + ResolveCList(rest, []);
  }

  // ----- a name in its own initialiser -----

  /** `var x = x`, resolved to the declaration `id` if there is one */
  function CopyX(k: nat): Expr { Expr(k, {"x"}, ["x"], true, map[]) }

  function CopyOf(k: nat, id: nat): Expr { CopyX(k).(binds := map["x" := id]) }

  /** `var x = 1; { var x = x; return x; }` */
  const OwnName: seq<Stmt> := [Action(DeclareX(1)), Block(CopyBody)]

  const CopyBody: seq<Stmt> := [Action(CopyX(5)), Return(Plain(UseX(3)))]

  const CopyResolved: seq<Stmt> := [Action(CopyOf(5, 1)), Return(Plain(Bound(3, 5)))]

  const CopyInC: seq<Target> := [TAct(CopyOf(5, 5)), TReturn(Bound(3, 5))]

  lemma CopiesX()
    ensures Bind(CopyX(5), [Decl("x", 1)]) == CopyOf(5, 1) && BindC(CopyX(5), [Decl("x", 1)]) == CopyOf(5, 5)
    ensures Decls(CopyX(5)) == [Decl("x", 5)]
  {
    var x1, x5 := [Decl("x", 1)], [Decl("x", 5)];
    assert Decls(CopyX(5)) == x5;
    assert Lookup(x1, "x") == Some(1) && Lookup(x1 + x5, "x") == Some(5);
    assert Bind(CopyX(5), x1).binds == map["x" := 1] && Bind(CopyX(5), x1 + x5).binds == map["x" := 5];
  }

  lemma OwnNameIsOrdinary()
    ensures ListOk(OwnName) && NewList(OwnName, [])
  {
    var x1 := [Decl("x", 1)];
    var last := [Block(CopyBody)];
    assert OwnName[1..] == last && last[1..] == [] && CopyBody[1..][1..] == [];
    assert ListOk(CopyBody) && WellFormed(last[0]) && ListOk(last);
    DeclaresX(1, []);
    assert [] + x1 == x1;
    assert forall i :: i in Ids(x1) ==> i == 1;
    assert NewList(CopyBody[1..], After(CopyBody[0], x1));
    assert NewList(CopyBody, x1) && NewList(last, x1);
  }

  lemma OwnNameResolved()
    ensures ResolveList(OwnName, []) == [Action(DeclareX(1)), Block(CopyResolved)]
  {
    hide Bind, Decls;
    var x1, x5 := [Decl("x", 1)], [Decl("x", 5)];
    var last, inner := [Block(CopyBody)], [Return(Plain(UseX(3)))];
    assert OwnName[1..] == last && last[1..] == [] && CopyBody[1..] == inner && inner[1..] == [];
    DeclaresX(1, []);
    assert [] + x1 == x1;
    CopiesX();
    UsesX(3, 5, x1);
    assert ResolveList(inner, x1 + x5) == [Return(Plain(Bound(3, 5)))];
    assert ResolveList(CopyBody, x1) == [Action(CopyOf(5, 1))] + [Return(Plain(Bound(3, 5)))];
    assert ResolveList(CopyBody, x1) == CopyResolved;
    assert ResolveList(last, x1) == [Block(CopyResolved)];
  }

  lemma OwnNameWoven()
    ensures WeaveFunction(OwnName) == [TAct(DeclareX(1)), TBlock([TAct(CopyX(5)), TReturn(UseX(3))])]
  {
    hide WeaveFunction;
    var none, block := [Scope(FunctionScope, [])], [Scope(FunctionScope, []), Scope(BlockScope, [])];
    var last, inner := [Block(CopyBody)], [Return(Plain(UseX(3)))];
    assert OwnName[1..] == last && last[1..] == [] && CopyBody[1..] == inner && inner[1..] == [];
    assert none + [Scope(BlockScope, [])] == block && Outer(block) == none && Outer(none) == [];
    assert WeaveAll(none) == [];
    assert WeaveAll(block) == [];
    assert WeaveList(inner, block) == [TReturn(UseX(3))];
    assert WeaveList(CopyBody, block) == [TAct(CopyX(5)), TReturn(UseX(3))];
    assert WeaveList(last, none) == [TBlock([TAct(CopyX(5)), TReturn(UseX(3))])];
    WovenFrom(OwnName);
  }

  lemma OwnNameInC()
    ensures ResolveCList(WeaveFunction(OwnName), []) == [TAct(DeclareX(1)), TBlock(CopyInC)]
  {
    hide Bind, BindC, Decls, WeaveFunction;
    OwnNameWoven();
    var x1, x5 := [Decl("x", 1)], [Decl("x", 5)];
    var body, last := [TAct(CopyX(5)), TReturn(UseX(3))], [TReturn(UseX(3))];
    var text := WeaveFunction(OwnName);
    assert text[1..] == [TBlock(body)] && body[1..] == last;
    DeclaresX(1, []);
    assert [] + x1 == x1;
    CopiesX();
    UsesX(3, 5, x1);
    OneC(last[0], x1 + x5);
    assert ResolveCList(body, x1) == [TAct(CopyOf(5, 5))] + [TReturn(Bound(3, 5))];
    assert ResolveCList(body, x1) == CopyInC;
    OneC(TBlock(body), x1);
  }

  /** The inner variable gets the value of the outer one in the source, which returns 1; in C it gets what it holds
      itself. */
  lemma OwnInitialiser()
    ensures ListOk(OwnName) && NewList(OwnName, []) && !AllKeep(FunctionPieces(OwnName, []))
    ensures ExecFunction(Variables, Documented, 0, ResolveList(OwnName, []), map[])
            == Done(Returns([1]), map[1 := 1, 5 := 1])
    ensures ExecTFunction(Variables, 0, ResolveCList(WeaveFunction(OwnName), []), map[])
            == Done(Returns([0]), map[1 := 1, 5 := 0])
  {
    hide ListOk, NewList, AllKeep, FunctionPieces, ResolveList, ResolveCList, WeaveFunction;
    OwnNameIsOrdinary();
    NamesAreKeptExactly(OwnName, []);
    ResolvedListOk(OwnName, []);
    WeavingKeepsMeaning(Variables, 0, ResolveList(OwnName, []), map[]);
    OwnNameResolved();
    OwnNameInC();
    CopySourceRun();
    CopyEmittedRun();
  }

  lemma CopySourceRun()
    ensures ExecFunction(Variables, Documented, 0, [Action(DeclareX(1)), Block(CopyResolved)], map[])
            == Done(Returns([1]), map[1 := 1, 5 := 1])
  {
    var body := [Action(DeclareX(1)), Block(CopyResolved)];
    var start: map<nat, int> := map[];
    assert body[1..] == [Block(CopyResolved)] && CopyResolved[1..] == [Return(Plain(Bound(3, 5)))];
    assert Act(CopyOf(5, 1), map[1 := 1]) == map[1 := 1, 5 := 1];
    assert ExecList(Variables, Documented, 0, CopyResolved, BlockScope, [], map[1 := 1])
        == Done(Late(Bound(3, 5)), map[1 := 1, 5 := 1]);
    assert ExecList(Variables, Documented, 0, body[1..], FunctionScope, [], map[1 := 1])
        == Done(Late(Bound(3, 5)), map[1 := 1, 5 := 1]);
    assert Act(DeclareX(1), start) == map[1 := 1];
    assert ExecList(Variables, Documented, 0, body, FunctionScope, [], start)
        == Done(Late(Bound(3, 5)), map[1 := 1, 5 := 1]);
  }

  lemma CopyEmittedRun()
    ensures ExecTFunction(Variables, 0, [TAct(DeclareX(1)), TBlock(CopyInC)], map[])
            == Done(Returns([0]), map[1 := 1, 5 := 0])
  {
    var body, last := [TAct(DeclareX(1)), TBlock(CopyInC)], [TReturn(Bound(3, 5))];
    var start: map<nat, int> := map[];
    assert CopyInC[1..] == last && body[1..] == [TBlock(CopyInC)];
    assert Act(CopyOf(5, 5), map[1 := 1]) == map[1 := 1, 5 := 0];
    assert ExecTList(Variables, 0, CopyInC, [], map[1 := 1]) == Done(Returns([0]), map[1 := 1, 5 := 0]);
    assert ExecTList(Variables, 0, body[1..], [], map[1 := 1]) == Done(Returns([0]), map[1 := 1, 5 := 0]);
    assert Act(DeclareX(1), start) == map[1 := 1];
    assert ExecTList(Variables, 0, body, [], start) == Done(Returns([0]), map[1 := 1, 5 := 0]);
  }
}
