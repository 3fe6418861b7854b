/** Programs that the check accepts although a name in a lambda means something else, or nothing, in its static
    function. */
module CaptureExamples {
  import opened CaptureScopes
  import opened CaptureSites

  /** `fn(): void { ... }` */
  function LambdaWith(body: Nodes): Node {
    Lambda(3, [], Cons(Scope(4, body), Nil))
  }

  /** `fn main() { ...; var f = the lambda; }` */
  function MainWith(first: Node, body: Nodes): Node {
    Fn(1, "main", [], Cons(Scope(2, Cons(first, Cons(Var("f", Cons(LambdaWith(body), Nil)), Nil))), Nil))
  }

  /** The scopes around the statements of the lambda. */
  function EnvOf(first: Node, body: Nodes): seq<Frame> {
    var root := MainWith(first, body);
    [Opened(LambdaWith(body).body.head), Opened(LambdaWith(body)), Opened(root.body.head), Opened(root), GlobalFrame(root)]
  }

  function ScopesOf(first: Node, body: Nodes): seq<Node> {
    var root := MainWith(first, body);
    [LambdaWith(body).body.head, LambdaWith(body), root.body.head, root]
  }

  /** What has been declared there. */
  function SeenAt(p: seq<TopLevel>, first: Node): seq<set<string>> {
    [{}, {}, Bound(first), {}, Globals(p) + {"main"}]
  }

  lemma OneUse(n: Node, ns: Nodes, scopes: seq<Node>, env: seq<Frame>, seen: seq<set<string>>)
    requires ns == Cons(n, Nil)
    ensures UsesIn(ns, scopes, env, seen) == Uses(n, scopes, env, seen)
  {}

  lemma TwoUses(m: Node, n: Node, ns: Nodes, scopes: seq<Node>, env: seq<Frame>, seen: seq<set<string>>)
    requires ns == Cons(m, Cons(n, Nil))
    ensures UsesIn(ns, scopes, env, seen) == Uses(m, scopes, env, seen) + Uses(n, scopes, env, Add(seen, Bound(m)))
  {
    OneUse(n, ns.tail, scopes, env, Add(seen, Bound(m)));
  }

  lemma LambdaUses(body: Nodes, scopes: seq<Node>, env: seq<Frame>, seen: seq<set<string>>)
    ensures var lambda := LambdaWith(body);
            Uses(lambda, scopes, env, seen) ==
            UsesIn(body, [lambda.body.head, lambda] + scopes, [Opened(lambda.body.head), Opened(lambda)] + env,
                   [{}, {}] + seen)
  {
    hide UsesIn, Opened;
    var lambda := LambdaWith(body);
    var c, e, s := [lambda] + scopes, [Opened(lambda)] + env, [Set<string>([])] + seen;
    OneUse(lambda.body.head, lambda.body, c, e, s);
    assert [lambda.body.head] + c == [lambda.body.head, lambda] + scopes;
    assert [Opened(lambda.body.head)] + e == [Opened(lambda.body.head), Opened(lambda)] + env;
    assert Set<string>([]) == {};
    assert [{}] + s == [{}, {}] + seen;
  }

  /** A statement that names nothing. */
  predicate Silent(n: Node) {
    ((n.Var? || n.Const? || n.Let?) && n.init.Nil?) || (n.Plain? && n.children.Nil?)
  }

  lemma NoUse(n: Node, scopes: seq<Node>, env: seq<Frame>, seen: seq<set<string>>)
    requires Silent(n)
    ensures Uses(n, scopes, env, seen) == []
  {}

  /** All uses in such a main function are those in the lambda. */
  lemma MainUses(p: seq<TopLevel>, first: Node, body: Nodes)
    requires Silent(first)
    ensures AllUses(p, MainWith(first, body)) ==
            UsesIn(body, ScopesOf(first, body), EnvOf(first, body), SeenAt(p, first))
  {
    hide UsesIn, Opened, GlobalFrame, Bound;
    var root := MainWith(first, body);
    var block := root.body.head;
    var f := block.children.tail.head;
    var e1, s1 := [Opened(root), GlobalFrame(root)], [{}, Globals(p) + {"main"}];
    var e2, s2 := [Opened(block)] + e1, [{}] + s1;
    var c2 := [block] + [root];
    assert Set<string>([]) == {};
    assert [root] + [] == [root];
    assert [Opened(root)] + [GlobalFrame(root)] == e1 && [Set<string>([])] + Add([Globals(p)], {"main"}) == s1;
    OneUse(block, root.body, [root], e1, s1);
    TwoUses(first, f, block.children, c2, e2, s2);
    NoUse(first, c2, e2, s2);
    var s3 := Add(s2, Bound(first));
    OneUse(LambdaWith(body), f.init, c2, e2, s3);
    LambdaUses(body, c2, e2, s3);
    assert {} + Bound(first) == Bound(first);
    assert [{}, {}] + s3 == SeenAt(p, first);
    assert [LambdaWith(body).body.head, LambdaWith(body)] + c2 == ScopesOf(first, body);
    assert [Opened(LambdaWith(body).body.head), Opened(LambdaWith(body))] + e2 == EnvOf(first, body);
  }

  /** Accepted, and its use of a name is not kept. */
  predicate Missed(p: seq<TopLevel>, root: Node, u: Use) {
    && Captures(root, [GlobalFrame(root)]) == []
    && u in AllUses(p, root) && Proper(u, Ahead(p)) && !KeepsBinding(u, Ahead(p))
  }

  /** The only use is not reported, so the declaration is accepted. */
  lemma OnlyUseMissed(p: seq<TopLevel>, root: Node, u: Use)
    requires AllUses(p, root) == [u] && !Captured(u.env, u.name) && (Outside(u) || Behind(u, Ahead(p)))
    ensures Missed(p, root, u)
  {
    hide Captured, KeepsBinding, Uses, Captures, ProperScopes, Outside, Behind;
    AllUsesAreProper(p, root);
    assert u in AllUses(p, root);
    KeptExactly(u, Ahead(p));
    CapturesAreUses(p, root);
  }

  /** The names recorded for these scopes. */
  lemma NamesRecorded(first: Node, body: Nodes)
    ensures Names(EnvOf(first, body)) == [DeclaredBy(body), {}, Declared(first) + {"f"}, {}, {"main"}]
    ensures Innermost(EnvOf(first, body)) == 1
  {
    var env := EnvOf(first, body);
    var lambda, root := LambdaWith(body), MainWith(first, body);
    var f := root.body.head.children.tail;
    assert DeclaredBy(f.head.init) == Declared(lambda) + {} == {};
    assert Declared(f.head) == {} + {"f"} && DeclaredBy(f) == Declared(f.head) + {};
    assert env[2].names == Declared(first) + DeclaredBy(f) == Declared(first) + {"f"};
    assert Set<string>([]) == {} && env[0].names == DeclaredBy(body) && env[4].names == {"main"};
    assert DeclaredBy(lambda.body) == {} && DeclaredBy(root.body) == {};
    assert env[1].names == {} && env[3].names == {};
    assert env[0].kind.BlockScope? && env[1..][0].kind.LambdaScope?;
    assert Innermost(env[1..]) == 0;
  }

  /** A name that the lambda declares, or that is recorded nowhere, is not reported. */
  lemma NotCaptured(first: Node, body: Nodes, x: string)
    requires x in DeclaredBy(body) || x !in Declared(first) + {"f", "main"}
    ensures !Captured(EnvOf(first, body), x)
  {
    hide Nearest, Innermost, Declared, DeclaredBy, EnvOf, Names;
    NamesRecorded(first, body);
    NearestIs(Names(EnvOf(first, body)), x, if x in DeclaredBy(body) then 0 else 5);
  }

  /** What is found in the scope `at`. */
  lemma FoundAt(first: Node, body: Nodes, u: Use, at: nat)
    requires u.env == EnvOf(first, body) && |u.seen| == 5 && at < 5 && u.name in u.seen[at]
    requires forall j :: 0 <= j < at ==> u.name !in u.seen[j]
    ensures Innermost(u.env) == 1 && Nearest(u.seen, u.name) == at && |u.env| == 5
  {
    hide Nearest, Innermost, Opened, DeclaredBy;
    NamesRecorded(first, body);
    NearestIs(u.seen, u.name, at);
  }

  // ----- a declaration that comes late -----

  /** `{ var y = x; var x; }` */
  function LateBody(): Nodes {
    Cons(Var("y", Cons(Ident(5, "x"), Nil)), Cons(Var("x", Nil), Nil))
  }

  /** `fn main() { var x; var f = fn() { var y = x; var x; }; }` */
  function LateExample(): Node {
    MainWith(Var("x", Nil), LateBody())
  }

  function LateUse(): Use {
    Use(5, "x", ScopesOf(Var("x", Nil), LateBody()), EnvOf(Var("x", Nil), LateBody()),
        [{}, {}, {"x"}, {}, {"main"}])
  }

  /** It is accepted, but its `x` is no longer the one of `main` in the static function. */
  lemma LateDeclarationIsMissed()
    ensures Missed([TopLevel(LateExample(), false)], LateExample(), LateUse())
  {
    hide Captured, Uses, AllUses, Nearest, Innermost, EnvOf;
    var root, first, body, u := LateExample(), Var("x", Nil), LateBody(), LateUse();
    var p := [TopLevel(root, false)];
    MainProgram(root);
    MainUses(p, first, body);
    LateBodyUses(u.scopes, u.env, u.seen);
    assert Bound(first) == {"x"};
    assert SeenAt(p, first) == u.seen;
    assert "x" in DeclaredBy(body);
    NotCaptured(first, body, "x");
    FoundAt(first, body, u, 2);
    OnlyUseMissed(p, root, u);
  }

  lemma LateBodyUses(scopes: seq<Node>, env: seq<Frame>, seen: seq<set<string>>)
    ensures UsesIn(LateBody(), scopes, env, seen) == [Use(5, "x", scopes, env, seen)]
  {
    hide UsesIn;
    var body := LateBody();
    TwoUses(body.head, Var("x", Nil), body, scopes, env, seen);
    OneUse(body.head.init.head, body.head.init, scopes, env, seen);
    var s := Add(seen, Bound(body.head));
    NoUse(Var("x", Nil), scopes, env, s);
  }

  /** A program of one function. */
  lemma MainProgram(root: Node)
    requires root.Fn? && root.name == "main"
    ensures var p := [TopLevel(root, false)]; Globals(p) + {"main"} == {"main"} && Ahead(p) == {}
  {
    var p := [TopLevel(root, false)];
    assert p[1..] == [];
  }

  // ----- a const -----

  /** `{ return x; }`, for any name. */
  function Returns(x: string): Nodes {
    Cons(Plain(Cons(Ident(5, x), Nil)), Nil)
  }

  /** `fn main() { const x; var f = fn() { return x; }; }` */
  function ConstExample(): Node {
    MainWith(Const("x", Nil), Returns("x"))
  }

  function ConstUse(): Use {
    Use(5, "x", ScopesOf(Const("x", Nil), Returns("x")), EnvOf(Const("x", Nil), Returns("x")),
        [{}, {}, {"x"}, {}, {"main"}])
  }

  /** It is accepted, since the name of the const is recorded nowhere, but the static function does not see it. */
  lemma ConstIsMissed()
    ensures Missed([TopLevel(ConstExample(), false)], ConstExample(), ConstUse())
  {
    hide Captured, Uses, UsesIn, AllUses, Nearest, Innermost, EnvOf;
    var root, first, body, u := ConstExample(), Const("x", Nil), Returns("x"), ConstUse();
    var p := [TopLevel(root, false)];
    MainProgram(root);
    MainUses(p, first, body);
    ReturnUses("x", u.scopes, u.env, u.seen);
    assert Bound(first) == {"x"} && Declared(first) == {};
    assert SeenAt(p, first) == u.seen;
    NotCaptured(first, body, "x");
    FoundAt(first, body, u, 2);
    OnlyUseMissed(p, root, u);
  }

  lemma ReturnUses(x: string, scopes: seq<Node>, env: seq<Frame>, seen: seq<set<string>>)
    ensures UsesIn(Returns(x), scopes, env, seen) == [Use(5, x, scopes, env, seen)]
  {
    hide UsesIn;
    var body := Returns(x);
    OneUse(body.head, body, scopes, env, seen);
    OneUse(body.head.children.head, body.head.children, scopes, env, seen);
  }

  // ----- a global variable -----

  /** `fn main() { var f = fn() { return g; }; return f(); }` */
  function GlobalMain(): Node {
    MainWith(Plain(Nil), Returns("g"))
  }

  /** `var g = 1;` and that main function */
  function GlobalExample(): seq<TopLevel> {
    [TopLevel(Var("g", Cons(Plain(Nil), Nil)), false), TopLevel(GlobalMain(), false)]
  }

  function GlobalUse(): Use {
    Use(5, "g", ScopesOf(Plain(Nil), Returns("g")), EnvOf(Plain(Nil), Returns("g")),
        [{}, {}, {}, {}, {"g", "main"}])
  }

  /** It is accepted and declares nothing late, but in the static function the variable has not been declared. */
  lemma GlobalIsMissed()
    ensures Missed(GlobalExample(), GlobalMain(), GlobalUse())
  {
    hide Captured, Uses, UsesIn, AllUses, Nearest, Innermost, EnvOf;
    var p, root, first, body, u := GlobalExample(), GlobalMain(), Plain(Nil), Returns("g"), GlobalUse();
    MainProgram(root);
    MainUses(p, first, body);
    ReturnUses("g", u.scopes, u.env, u.seen);
    assert p[1..] == [TopLevel(root, false)];
    assert Bound(p[0].node) == {"g"} && Globals(p) + {"main"} == {"g", "main"} && Ahead(p) == {};
    assert Bound(first) == {} && Declared(first) == {};
    assert SeenAt(p, first) == u.seen;
    NotCaptured(first, body, "g");
    FoundAt(first, body, u, 4);
    OnlyUseMissed(p, root, u);
  }

  // ----- a let: caught -----

  /** `fn main() { let x; var f = fn() { return x; }; }` */
  function LetExample(): Node {
    MainWith(Let(["x"], Nil), Returns("x"))
  }

  lemma ChainToUse(first: Node, x: string)
    ensures Leads(ScopesOf(first, Returns(x)), Ident(5, x), Cons(MainWith(first, Returns(x)), Nil))
  {
    var chain, root := ScopesOf(first, Returns(x)), MainWith(first, Returns(x));
    var lambda := chain[1];
    assert chain[..3][..2] == chain[..2] && chain[..2][..1] == chain[..1] && chain[..1][..0] == [];
    var f := root.body.head.children.tail;
    assert StandsIn(Ident(5, x), Returns(x).head.children) && Stands(Ident(5, x), Returns(x).head);
    assert StandsIn(chain[0], lambda.body);
    assert Leads(chain[..1], Ident(5, x), lambda.body);
    assert StandsIn(lambda, f.head.init) && Stands(lambda, f.head);
    assert StandsIn(lambda, root.body.head.children);
    assert Leads(chain[..2], Ident(5, x), root.body.head.children);
    assert chain[..3][2] == chain[2] == root.body.head && StandsIn(chain[2], root.body);
    assert Leads(chain[..3], Ident(5, x), root.body);
  }

  /** The lambda of this one is reported. */
  lemma LetIsCaught()
    ensures Capture(3, "x", 5) in Captures(LetExample(), [GlobalFrame(LetExample())])
  {
    var first, body := Let(["x"], Nil), Returns("x");
    var chain := ScopesOf(first, body);
    ChainToUse(first, "x");
    assert StandsIn(first, Body(chain[2]));
    assert !Declares(chain[0], "x") && !Declares(chain[1], "x") by {
      NamesRecorded(first, body);
      OpenedExactly(chain[0], "x");
      OpenedExactly(chain[1], "x");
    }
    hide Leads, Captures, Declares;
    OuterNameIsReported(LetExample(), chain, 1, 2, first, "x", 5);
  }
}
