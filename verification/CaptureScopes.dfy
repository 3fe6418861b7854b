/** Declarations, scopes and uses of names, and what becomes of a use when its lambda is moved to the top level. */
module CaptureScopes {

  /** A declaration with its scopes. `id` is the identity of a node. A scope node stands for a block or a for
      loop; every other node with children that may hold names is plain. */
  datatype Node =
    | Ident(id: nat, name: string)
    | Var(name: string, init: Nodes)
    | Const(name: string, init: Nodes)
    | Let(names: seq<string>, init: Nodes)
    | Fn(id: nat, name: string, params: seq<string>, body: Nodes)
    | Lambda(id: nat, params: seq<string>, body: Nodes)
    | Scope(id: nat, children: Nodes)
    | Plain(children: Nodes)

  datatype Nodes = Nil | Cons(head: Node, tail: Nodes)

  datatype ScopeKind = GlobalScope | FunctionScope | LambdaScope | BlockScope

  /** An open scope: the node it belongs to and all the names recorded for it, early or late. */
  datatype Frame = Frame(kind: ScopeKind, owner: nat, names: set<string>)

  function Set<T>(s: seq<T>): set<T> {
    set x | x in s
  }

  /** The names that the check records for the scope a node stands in; it passes over the name of a const. */
  function Declared(n: Node): set<string> {
    match n
    case Var(name, init) => DeclaredBy(init) + {name}
    case Const(_, init) => DeclaredBy(init)
    case Let(names, init) => DeclaredBy(init) + (Set(names) - {"_"})
    case Fn(_, name, _, _) => {name}
    case Plain(children) => DeclaredBy(children)
    case _ => {}
  }

  function DeclaredBy(ns: Nodes): set<string> {
    if ns.Nil? then {} else Declared(ns.head) + DeclaredBy(ns.tail)
  }

  /** The names a node really declares there. */
  function Bound(n: Node): set<string> {
    match n
    case Var(name, init) => BoundBy(init) + {name}
    case Const(name, init) => BoundBy(init) + {name}
    case Let(names, init) => BoundBy(init) + (Set(names) - {"_"})
    case Fn(_, name, _, _) => {name}
    case Plain(children) => BoundBy(children)
    case _ => {}
  }

  function BoundBy(ns: Nodes): set<string> {
    if ns.Nil? then {} else Bound(ns.head) + BoundBy(ns.tail)
  }

  /** The names that const nodes declare there. */
  function Consts(n: Node): set<string> {
    match n
    case Var(_, init) => ConstsIn(init)
    case Const(name, init) => ConstsIn(init) + {name}
    case Let(_, init) => ConstsIn(init)
    case Plain(children) => ConstsIn(children)
    case _ => {}
  }

  function ConstsIn(ns: Nodes): set<string> {
    if ns.Nil? then {} else Consts(ns.head) + ConstsIn(ns.tail)
  }

  /** What is declared but not recorded are the consts. */
  lemma {:induction false} ConstsAreMissing(n: Node)
    ensures Bound(n) == Declared(n) + Consts(n)
  {
    match n
    case Var(_, init) => ConstsInAreMissing(init);
    case Const(_, init) => ConstsInAreMissing(init);
    case Let(_, init) => ConstsInAreMissing(init);
    case Plain(children) => ConstsInAreMissing(children);
    case _ =>
  }

  lemma {:induction false} ConstsInAreMissing(ns: Nodes)
    ensures BoundBy(ns) == DeclaredBy(ns) + ConstsIn(ns)
  {
    if ns.Cons? {
      ConstsAreMissing(ns.head);
      ConstsInAreMissing(ns.tail);
    }
  }

  // ----- the same by looking for the declarations -----

  /** `d` is the node, or a part of it in the same scope. */
  predicate Stands(d: Node, n: Node) {
    d == n ||
    match n
    case Var(_, init) => StandsIn(d, init)
    case Const(_, init) => StandsIn(d, init)
    case Let(_, init) => StandsIn(d, init)
    case Plain(children) => StandsIn(d, children)
    case _ => false
  }

  predicate StandsIn(d: Node, ns: Nodes) {
    ns.Cons? && (Stands(d, ns.head) || StandsIn(d, ns.tail))
  }

  /** A variable, a let or a function of that name. */
  predicate Introduces(d: Node, name: string) {
    || ((d.Var? || d.Fn?) && d.name == name)
    || (d.Let? && name in d.names && name != "_")
  }

  predicate IsConst(d: Node, name: string) {
    d.Const? && d.name == name
  }

  /** Recorded for a scope are the names of the variables, lets and functions that stand in it. */
  lemma {:induction false} DeclaredExactly(n: Node, name: string)
    ensures name in Declared(n) <==> exists d :: Stands(d, n) && Introduces(d, name)
  {
    match n
    case Ident(_, _) =>
    case Var(_, init) => DeclaredByExactly(init, name); NodeOrPart(n, init, name);
    case Const(_, init) => DeclaredByExactly(init, name); NodeOrPart(n, init, name);
    case Let(_, init) => DeclaredByExactly(init, name); NodeOrPart(n, init, name);
    case Fn(_, _, _, _) => NodeOrPart(n, Nil, name);
    case Lambda(_, _, _) =>
    case Scope(_, _) =>
    case Plain(children) => DeclaredByExactly(children, name); NodeOrPart(n, children, name);
  }

  lemma {:induction false} DeclaredByExactly(ns: Nodes, name: string)
    ensures name in DeclaredBy(ns) <==> exists d :: StandsIn(d, ns) && Introduces(d, name)
  {
    hide Introduces;
    if ns.Cons? {
      DeclaredExactly(ns.head, name);
      DeclaredByExactly(ns.tail, name);
    }
  }

  /** The names of consts are those of the const nodes that stand there. */
  lemma {:induction false} ConstsExactly(n: Node, name: string)
    ensures name in Consts(n) <==> exists d :: Stands(d, n) && IsConst(d, name)
  {
    match n
    case Var(_, init) => ConstsInExactly(init, name); NodeOrPart(n, init, name);
    case Const(_, init) => ConstsInExactly(init, name); NodeOrPart(n, init, name);
    case Let(_, init) => ConstsInExactly(init, name); NodeOrPart(n, init, name);
    case Plain(children) => ConstsInExactly(children, name); NodeOrPart(n, children, name);
    case _ =>
  }

  lemma {:induction false} ConstsInExactly(ns: Nodes, name: string)
    ensures name in ConstsIn(ns) <==> exists d :: StandsIn(d, ns) && IsConst(d, name)
  {
    hide IsConst;
    if ns.Cons? {
      ConstsExactly(ns.head, name);
      ConstsInExactly(ns.tail, name);
    }
  }

  /** What stands in a node is the node or stands in its parts. */
  lemma NodeOrPart(n: Node, parts: Nodes, name: string)
    requires forall d :: Stands(d, n) <==> d == n || StandsIn(d, parts)
    ensures (exists d :: Stands(d, n) && Introduces(d, name)) <==>
            Introduces(n, name) || exists d :: StandsIn(d, parts) && Introduces(d, name)
    ensures (exists d :: Stands(d, n) && IsConst(d, name)) <==>
            IsConst(n, name) || exists d :: StandsIn(d, parts) && IsConst(d, name)
  {
    hide Stands, StandsIn, Introduces, IsConst;
    assert Stands(n, n);
  }

  // ----- scopes -----

  predicate Opens(n: Node) {
    n.Fn? || n.Lambda? || n.Scope?
  }

  function Body(n: Node): Nodes
    requires Opens(n)
  {
    if n.Scope? then n.children else n.body
  }

  function Params(n: Node): seq<string>
    requires Opens(n)
  {
    if n.Scope? then [] else n.params
  }

  /** A parameter of the scope, or a variable, let or function that stands in it, early or late. */
  ghost predicate Declares(scope: Node, name: string)
    requires Opens(scope)
  {
    name in Params(scope) || exists d :: StandsIn(d, Body(scope)) && Introduces(d, name)
  }

  /** In this scope the name is declared by a const, and by nothing else. */
  ghost predicate OnlyConst(scope: Node, name: string)
    requires Opens(scope)
  {
    !Declares(scope, name) && exists d :: StandsIn(d, Body(scope)) && IsConst(d, name)
  }

  /** The scope a node opens, if it does. */
  function Opened(n: Node): Frame
    requires Opens(n)
  {
    match n
    case Fn(id, _, params, body) => Frame(FunctionScope, id, Set(params) + DeclaredBy(body))
    case Lambda(id, params, body) => Frame(LambdaScope, id, Set(params) + DeclaredBy(body))
    case Scope(id, children) => Frame(BlockScope, id, DeclaredBy(children))
  }

  /** Its names are exactly those that it declares. */
  lemma OpenedExactly(n: Node, name: string)
    requires Opens(n)
    ensures name in Opened(n).names <==> Declares(n, name)
    ensures Opened(n).kind.LambdaScope? <==> n.Lambda?
    ensures !Opened(n).kind.GlobalScope? && Opened(n).owner == n.id
  {
    hide Introduces, DeclaredBy, StandsIn;
    DeclaredByExactly(Body(n), name);
  }

  // ----- looking names up; the innermost scope comes first -----

  function Nearest(env: seq<set<string>>, name: string): (i: nat)
    ensures i <= |env|
    ensures i < |env| ==> name in env[i]
    ensures forall j :: 0 <= j < i ==> name !in env[j]
  {
    if env == [] || name in env[0] then 0 else 1 + Nearest(env[1..], name)
  }

  function Names(env: seq<Frame>): (r: seq<set<string>>)
    ensures |r| == |env| && forall i :: 0 <= i < |env| ==> r[i] == env[i].names
  {
    seq(|env|, i requires 0 <= i < |env| => env[i].names)
  }

  /** The position of the innermost lambda. */
  function Innermost(env: seq<Frame>): (i: nat)
    ensures i <= |env|
    ensures i < |env| ==> env[i].kind.LambdaScope?
    ensures forall j :: 0 <= j < i ==> !env[j].kind.LambdaScope?
  {
    if env == [] || env[0].kind.LambdaScope? then 0 else 1 + Innermost(env[1..])
  }

  /** The nearest scope for which the name is recorded, declared now or later, lies strictly between the innermost lambda and
      the global scope. */
  predicate Captured(env: seq<Frame>, name: string) {
    var l, i := Innermost(env), Nearest(Names(env), name);
    l < i < |env| && !env[i].kind.GlobalScope?
  }

  // ----- a program and what stands where in its text -----

  /** A declaration of a program. An external one has been declared by an included C header. */
  datatype TopLevel = TopLevel(node: Node, external: bool)

  /** The names of all declarations; every function may use them. */
  function Globals(p: seq<TopLevel>): set<string> {
    if p == [] then {} else Bound(p[0].node) + Globals(p[1..])
  }

  /** Functions are declared ahead of all definitions, except the main function and tests. */
  predicate DeclaredAhead(name: string) {
    name != "main" && !("test_" <= name)
  }

  function AheadOf(d: TopLevel): set<string> {
    if d.external then Bound(d.node)
    else if d.node.Fn? && DeclaredAhead(d.node.name) then {d.node.name}
    else {}
  }

  /** The names that stand in the text before the static functions made of lambdas: what C headers and forward
      declarations declare. The definitions of functions and global variables stand behind them. */
  function Ahead(p: seq<TopLevel>): set<string> {
    if p == [] then {} else AheadOf(p[0]) + Ahead(p[1..])
  }

  /** A global name stands only behind the lambdas exactly when each of its declarations is a variable or constant, the
      main function or a test, and no header declares it. */
  lemma {:induction false} BehindExactly(p: seq<TopLevel>, name: string)
    ensures Ahead(p) <= Globals(p)
    ensures name !in Ahead(p) <==>
            forall d :: d in p && name in Bound(d.node) ==>
              !d.external && (d.node.Fn? ==> name == "main" || (|name| >= 5 && name[..5] == "test_"))
  {
    if p != [] {
      BehindExactly(p[1..], name);
      assert p == [p[0]] + p[1..];
      assert name in AheadOf(p[0]) <==>
        name in Bound(p[0].node) && (p[0].external || (p[0].node.Fn? && DeclaredAhead(name)));
    }
  }

  // ----- the uses of names in a declaration -----

  /** A use of a name: the nodes around it that open a scope, innermost first, the frames of these scopes and of the
      global one, and how much of each has been declared before. */
  datatype Use = Use(id: nat, name: string, scopes: seq<Node>, env: seq<Frame>, seen: seq<set<string>>)

  function Add(seen: seq<set<string>>, names: set<string>): (r: seq<set<string>>)
    ensures |r| == |seen|
  {
    if seen == [] then [] else [seen[0] + names] + seen[1..]
  }

  function Uses(n: Node, scopes: seq<Node>, env: seq<Frame>, seen: seq<set<string>>): seq<Use> {
    match n
    case Ident(id, name) => [Use(id, name, scopes, env, seen)]
    case Var(_, init) => UsesIn(init, scopes, env, seen)
    case Const(_, init) => UsesIn(init, scopes, env, seen)
    case Let(_, init) => UsesIn(init, scopes, env, seen)
    case Fn(_, name, params, body) => UsesIn(body, [n] + scopes, [Opened(n)] + env, [Set(params)] + Add(seen, {name}))
    case Lambda(_, params, body) => UsesIn(body, [n] + scopes, [Opened(n)] + env, [Set(params)] + seen)
    case Scope(_, children) => UsesIn(children, [n] + scopes, [Opened(n)] + env, [{}] + seen)
    case Plain(children) => UsesIn(children, scopes, env, seen)
  }

  function UsesIn(ns: Nodes, scopes: seq<Node>, env: seq<Frame>, seen: seq<set<string>>): seq<Use> {
    if ns.Nil? then []
    else Uses(ns.head, scopes, env, seen) + UsesIn(ns.tail, scopes, env, Add(seen, Bound(ns.head)))
  }

  /** The checker looks at each declaration on its own and starts with a global scope that holds nothing else. */
  function GlobalFrame(root: Node): Frame {
    Frame(GlobalScope, 0, Declared(root))
  }

  /** The uses in one declaration of a program, which sees the globals of all of them. */
  function AllUses(p: seq<TopLevel>, root: Node): seq<Use> {
    Uses(root, [], [GlobalFrame(root)], [Globals(p)])
  }

  // ----- the captures of a declaration -----

  datatype Capture = Capture(lambda: nat, name: string, id: nat)

  /** Every captured name, in the order of the text, with the lambda that captures it. */
  function Captures(n: Node, env: seq<Frame>): seq<Capture> {
    match n
    case Ident(id, name) => if Captured(env, name) then [Capture(env[Innermost(env)].owner, name, id)] else []
    case Var(_, init) => CapturesIn(init, env)
    case Const(_, init) => CapturesIn(init, env)
    case Let(_, init) => CapturesIn(init, env)
    case Fn(_, _, _, body) => CapturesIn(body, [Opened(n)] + env)
    case Lambda(_, _, body) => CapturesIn(body, [Opened(n)] + env)
    case Scope(_, children) => CapturesIn(children, [Opened(n)] + env)
    case Plain(children) => CapturesIn(children, env)
  }

  function CapturesIn(ns: Nodes, env: seq<Frame>): seq<Capture> {
    if ns.Nil? then [] else Captures(ns.head, env) + CapturesIn(ns.tail, env)
  }

  /** This lambda captures the use. */
  predicate Catches(u: Use, lambda: nat) {
    Captured(u.env, u.name) && u.env[Innermost(u.env)].owner == lambda
  }

  function Report(u: Use): seq<Capture> {
    if Captured(u.env, u.name) then [Capture(u.env[Innermost(u.env)].owner, u.name, u.id)] else []
  }

  /** What is to be reported of some uses. */
  function Reports(us: seq<Use>): seq<Capture> {
    if us == [] then [] else Report(us[0]) + Reports(us[1..])
  }

  lemma {:induction false} ReportsOfBoth(us: seq<Use>, vs: seq<Use>)
    ensures Reports(us + vs) == Reports(us) + Reports(vs)
  {
    hide Report;
    if us == [] {
      assert us + vs == vs;
    } else {
      assert (us + vs)[1..] == us[1..] + vs;
      ReportsOfBoth(us[1..], vs);
    }
  }

  /** The captures are the captured uses, in their order. */
  lemma {:induction false} CapturesOfUses(n: Node, scopes: seq<Node>, env: seq<Frame>, seen: seq<set<string>>)
    ensures Captures(n, env) == Reports(Uses(n, scopes, env, seen))
  {
    hide Captured;
    match n
    case Ident(id, name) =>
      assert Uses(n, scopes, env, seen)[1..] == [];
    case Var(_, init) => CapturesInOfUses(init, scopes, env, seen);
    case Const(_, init) => CapturesInOfUses(init, scopes, env, seen);
    case Let(_, init) => CapturesInOfUses(init, scopes, env, seen);
    case Fn(_, name, params, body) =>
      CapturesInOfUses(body, [n] + scopes, [Opened(n)] + env, [Set(params)] + Add(seen, {name}));
    case Lambda(_, params, body) => CapturesInOfUses(body, [n] + scopes, [Opened(n)] + env, [Set(params)] + seen);
    case Scope(_, children) => CapturesInOfUses(children, [n] + scopes, [Opened(n)] + env, [{}] + seen);
    case Plain(children) => CapturesInOfUses(children, scopes, env, seen);
  }

  lemma {:induction false} CapturesInOfUses(ns: Nodes, scopes: seq<Node>, env: seq<Frame>, seen: seq<set<string>>)
    ensures CapturesIn(ns, env) == Reports(UsesIn(ns, scopes, env, seen))
  {
    hide Captured;
    if ns.Cons? {
      CapturesOfUses(ns.head, scopes, env, seen);
      CapturesInOfUses(ns.tail, scopes, env, Add(seen, Bound(ns.head)));
      ReportsOfBoth(Uses(ns.head, scopes, env, seen), UsesIn(ns.tail, scopes, env, Add(seen, Bound(ns.head))));
    }
  }

  lemma {:induction false} ReportedExactly(us: seq<Use>, c: Capture)
    ensures c in Reports(us) <==>
            exists u :: u in us && Catches(u, c.lambda) && u.name == c.name && u.id == c.id
  {
    hide Captured;
    if us != [] {
      ReportedExactly(us[1..], c);
      assert us == [us[0]] + us[1..];
    }
  }

  lemma {:induction false} NothingReported(us: seq<Use>)
    ensures Reports(us) == [] <==> forall u :: u in us ==> !Captured(u.env, u.name)
  {
    hide Captured;
    if us != [] {
      NothingReported(us[1..]);
      assert us == [us[0]] + us[1..];
    }
  }

  /** No capture is found exactly when no use is captured. */
  lemma CapturesAreUses(p: seq<TopLevel>, root: Node)
    ensures Captures(root, [GlobalFrame(root)]) == [] <==> forall u :: u in AllUses(p, root) ==> !Captured(u.env, u.name)
  {
    hide Captured, Captures, Uses, Reports;
    CapturesOfUses(root, [], [GlobalFrame(root)], [Globals(p)]);
    NothingReported(AllUses(p, root));
  }

  // ----- moving a lambda to the top level -----

  predicate InLambda(u: Use) {
    Innermost(u.env) < |u.env|
  }

  /** What can be seen in the static function that the emitter makes of the innermost lambda: the scopes up to the
      lambda, and of the global scope what stands before the static functions. */
  function Lifted(u: Use, ahead: set<string>): seq<set<string>>
    requires Proper(u, ahead) && InLambda(u)
  {
    u.seen[..Innermost(u.env) + 1] + [ahead]
  }

  /** The use denotes the same declaration before and after: the scope found is the same one. A name that no
      declaration of the program introduces stands for something of the runtime both times. */
  predicate KeepsBinding(u: Use, ahead: set<string>)
    requires Proper(u, ahead)
  {
    InLambda(u) ==>
      var i, j := Nearest(u.seen, u.name), Nearest(Lifted(u, ahead), u.name);
      if j <= Innermost(u.env) then i == j
      else if j < |Lifted(u, ahead)| then i == |u.seen| - 1
      else i == |u.seen|
  }

  /** The outermost scope is the global one, and what stands ahead is global. The others are those of the nodes; whatever
      has been declared in one of them is recorded for it or declared there by a const. */
  predicate ProperScopes(scopes: seq<Node>, env: seq<Frame>, seen: seq<set<string>>, ahead: set<string>) {
    && |seen| == |env| == |scopes| + 1
    && env[|scopes|].kind.GlobalScope? && ahead <= seen[|scopes|]
    && (forall i :: 0 <= i < |scopes| ==> Opens(scopes[i]) && env[i] == Opened(scopes[i]))
    && (forall i :: 0 <= i < |scopes| ==> seen[i] <= env[i].names + ConstsIn(Body(scopes[i])))
  }

  predicate Proper(u: Use, ahead: set<string>) {
    ProperScopes(u.scopes, u.env, u.seen, ahead)
  }

  /** These names may be declared in the innermost scope. */
  predicate Fits(names: set<string>, scopes: seq<Node>) {
    scopes != [] ==> Opens(scopes[0]) && names <= Opened(scopes[0]).names + ConstsIn(Body(scopes[0]))
  }

  lemma AddIsProper(scopes: seq<Node>, env: seq<Frame>, seen: seq<set<string>>, ahead: set<string>, names: set<string>)
    requires ProperScopes(scopes, env, seen, ahead) && Fits(names, scopes)
    ensures ProperScopes(scopes, env, Add(seen, names), ahead)
  {}

  lemma PushIsProper(n: Node, s: set<string>, scopes: seq<Node>, env: seq<Frame>, seen: seq<set<string>>,
                     ahead: set<string>)
    requires ProperScopes(scopes, env, seen, ahead) && Opens(n) && s <= Set(Params(n))
    ensures ProperScopes([n] + scopes, [Opened(n)] + env, [s] + seen, ahead)
    ensures Fits(BoundBy(Body(n)), [n] + scopes)
  {
    ConstsInAreMissing(Body(n));
  }

  lemma {:induction false} UsesAreProper(n: Node, scopes: seq<Node>, env: seq<Frame>, seen: seq<set<string>>,
                                         ahead: set<string>)
    requires ProperScopes(scopes, env, seen, ahead) && Fits(Bound(n), scopes)
    ensures forall u :: u in Uses(n, scopes, env, seen) ==> Proper(u, ahead)
  {
    hide ProperScopes;
    match n
    case Ident(_, _) =>
    case Var(_, init) => UsesInAreProper(init, scopes, env, seen, ahead);
    case Const(_, init) => UsesInAreProper(init, scopes, env, seen, ahead);
    case Let(_, init) => UsesInAreProper(init, scopes, env, seen, ahead);
    case Fn(_, name, params, body) =>
      AddIsProper(scopes, env, seen, ahead, {name});
      PushIsProper(n, Set(params), scopes, env, Add(seen, {name}), ahead);
      UsesInAreProper(body, [n] + scopes, [Opened(n)] + env, [Set(params)] + Add(seen, {name}), ahead);
    case Lambda(_, params, body) =>
      PushIsProper(n, Set(params), scopes, env, seen, ahead);
      UsesInAreProper(body, [n] + scopes, [Opened(n)] + env, [Set(params)] + seen, ahead);
    case Scope(_, children) =>
      PushIsProper(n, {}, scopes, env, seen, ahead);
      UsesInAreProper(children, [n] + scopes, [Opened(n)] + env, [{}] + seen, ahead);
    case Plain(children) => UsesInAreProper(children, scopes, env, seen, ahead);
  }

  lemma {:induction false} UsesInAreProper(ns: Nodes, scopes: seq<Node>, env: seq<Frame>, seen: seq<set<string>>,
                                           ahead: set<string>)
    requires ProperScopes(scopes, env, seen, ahead) && Fits(BoundBy(ns), scopes)
    ensures forall u :: u in UsesIn(ns, scopes, env, seen) ==> Proper(u, ahead)
  {
    hide ProperScopes, Bound, Opened, ConstsIn;
    if ns.Cons? {
      UsesAreProper(ns.head, scopes, env, seen, ahead);
      AddIsProper(scopes, env, seen, ahead, Bound(ns.head));
      UsesInAreProper(ns.tail, scopes, env, Add(seen, Bound(ns.head)), ahead);
    }
  }

  lemma AllUsesAreProper(p: seq<TopLevel>, root: Node)
    ensures forall u :: u in AllUses(p, root) ==> Proper(u, Ahead(p))
  {
    BehindExactly(p, "");
    UsesAreProper(root, [], [GlobalFrame(root)], [Globals(p)], Ahead(p));
  }

  /** Whatever has been declared in a scope is a parameter of it, or a variable, a let, a function or a const that stands
      in it. */
  lemma SeenIsDeclared(u: Use, ahead: set<string>, i: nat)
    requires Proper(u, ahead) && i < |u.scopes| && u.name in u.seen[i]
    ensures Declares(u.scopes[i], u.name) || OnlyConst(u.scopes[i], u.name)
    ensures u.name in u.env[i].names <==> Declares(u.scopes[i], u.name)
  {
    hide Declares, StandsIn, ConstsIn, IsConst, DeclaredBy;
    OpenedExactly(u.scopes[i], u.name);
    ConstsInExactly(Body(u.scopes[i]), u.name);
  }

  // ----- when the check is right -----

  /** The declaration in force is one of an enclosing function. */
  predicate Outside(u: Use) {
    Innermost(u.env) < Nearest(u.seen, u.name) < |u.env| - 1
  }

  /** The declaration in force is global and stands in the text only behind the static functions. */
  predicate Behind(u: Use, ahead: set<string>) {
    InLambda(u) && Nearest(u.seen, u.name) == |u.env| - 1 && u.name !in ahead
  }

  /** The declaration in force is one of an enclosing function, and the lambda declares the name only later. */
  predicate LateInLambda(u: Use) {
    Outside(u) && exists j :: 0 <= j <= Innermost(u.env) < |u.env| && u.name in u.env[j].names
  }

  /** The declaration in force is a const of an enclosing function. */
  ghost predicate ConstOutside(u: Use) {
    var i := Nearest(u.seen, u.name);
    Outside(u) && i < |u.scopes| && Opens(u.scopes[i]) && OnlyConst(u.scopes[i], u.name)
  }

  /** The lambda itself has declared the name before the use. */
  predicate Inside(u: Use) {
    InLambda(u) && Nearest(u.seen, u.name) <= Innermost(u.env)
  }

  /** Nothing nearer than the declaration in force declares the name later on, and that declaration is recorded, unless
      it is global. */
  predicate Settled(u: Use)
    requires |u.seen| == |u.env|
  {
    var i := Nearest(u.seen, u.name);
    && (forall j :: 0 <= j < i ==> u.name !in u.env[j].names)
    && (i < |u.env| - 1 ==> u.name in u.env[i].names)
  }

  lemma NearestIs(env: seq<set<string>>, name: string, i: nat)
    requires i <= |env| && (i < |env| ==> name in env[i]) && forall j :: 0 <= j < i ==> name !in env[j]
    ensures Nearest(env, name) == i
  {
    assert i < |env| ==> Nearest(env, name) <= i;
  }

  /** A use survives the move exactly when its declaration is neither one of an enclosing function nor a global one that
      stands only behind the static functions. */
  lemma KeptExactly(u: Use, ahead: set<string>)
    requires Proper(u, ahead)
    ensures KeepsBinding(u, ahead) <==> !Outside(u) && !Behind(u, ahead)
  {
    if InLambda(u) {
      var l, i, n := Innermost(u.env), Nearest(u.seen, u.name), |u.seen|;
      assert l < n - 1;
      var lifted := Lifted(u, ahead);
      if i <= l {
        NearestIs(lifted, u.name, i);
      } else if u.name in ahead {
        NearestIs(lifted, u.name, l + 1);
      } else {
        NearestIs(lifted, u.name, l + 2);
      }
    }
  }

  /** Where no declaration comes late and none in force is a const of a function, the check reports a use that the move
      changes, and no other, if and only if the use is not one of a global that stands behind the static functions. */
  lemma VerdictIsExact(u: Use, ahead: set<string>)
    requires Proper(u, ahead) && Settled(u)
    ensures (Captured(u.env, u.name) <==> !KeepsBinding(u, ahead)) <==> !Behind(u, ahead)
    ensures Captured(u.env, u.name) ==> !Behind(u, ahead)
  {
    KeptExactly(u, ahead);
    var i, n := Nearest(u.seen, u.name), |u.env|;
    if i < n - 1 {
      NearestIs(Names(u.env), u.name, i);
    } else {
      assert forall j :: 0 <= j < n - 1 ==> u.name !in Names(u.env)[j];
    }
  }

  /** In general an accepted use survives if and only if its lambda does not declare the name later, it is not the const
      of an enclosing function, and no global that stands behind the static functions. */
  lemma MissedExactly(u: Use, ahead: set<string>)
    requires Proper(u, ahead) && !Captured(u.env, u.name)
    ensures KeepsBinding(u, ahead) <==> !LateInLambda(u) && !ConstOutside(u) && !Behind(u, ahead)
  {
    KeptExactly(u, ahead);
    var l, n, w := Innermost(u.env), |u.env|, Nearest(Names(u.env), u.name);
    if Outside(u) {
      SeenIsDeclared(u, ahead, Nearest(u.seen, u.name));
      if w <= l {
        assert u.name in u.env[w].names;
      } else {
        assert forall j :: 0 <= j < n - 1 ==> u.name !in Names(u.env)[j];
      }
    }
  }

  /** And a reported use would have survived if and only if the lambda has declared the name as a const, or the enclosing
      functions declare it only behind the use and no global is in force that stands behind the static functions. */
  lemma FalseAlarmExactly(u: Use, ahead: set<string>)
    requires Proper(u, ahead) && Captured(u.env, u.name)
    ensures KeepsBinding(u, ahead) <==> Inside(u) || (Nearest(u.seen, u.name) >= |u.env| - 1 && !Behind(u, ahead))
    ensures Inside(u) ==> OnlyConst(u.scopes[Nearest(u.seen, u.name)], u.name)
  {
    KeptExactly(u, ahead);
    var i := Nearest(u.seen, u.name);
    if Inside(u) {
      SeenIsDeclared(u, ahead, i);
    }
    assert i < |u.env| && u.name in u.env[i].names ==> Nearest(Names(u.env), u.name) <= i by {
      assert i < |u.env| ==> Names(u.env)[i] == u.env[i].names;
    }
  }

  /** A declaration without captures can be lifted if and only if no lambda declares a captured name later, names a const
      of an enclosing function, or names a global that stands behind the static functions. */
  lemma AcceptedIsLiftable(p: seq<TopLevel>, root: Node)
    requires Captures(root, [GlobalFrame(root)]) == []
    ensures forall u :: u in AllUses(p, root) ==> Proper(u, Ahead(p))
    ensures (forall u :: u in AllUses(p, root) ==> KeepsBinding(u, Ahead(p))) <==>
            (forall u :: u in AllUses(p, root) ==> !LateInLambda(u) && !ConstOutside(u) && !Behind(u, Ahead(p)))
  {
    hide LateInLambda, ConstOutside, Behind, KeepsBinding, Proper, Captured;
    AllUsesAreProper(p, root);
    CapturesAreUses(p, root);
    forall u | u in AllUses(p, root)
      ensures KeepsBinding(u, Ahead(p)) <==> !LateInLambda(u) && !ConstOutside(u) && !Behind(u, Ahead(p))
    {
      MissedExactly(u, Ahead(p));
    }
  }

  /** Where no declaration comes late and no const of a function is used, a declaration can be lifted if and only if it
      is accepted and its lambdas name no global that stands behind the static functions. */
  lemma AcceptanceIsExact(p: seq<TopLevel>, root: Node)
    requires forall u :: u in AllUses(p, root) ==> Proper(u, Ahead(p)) && Settled(u)
    ensures Captures(root, [GlobalFrame(root)]) == [] && (forall u :: u in AllUses(p, root) ==> !Behind(u, Ahead(p)))
            <==> forall u :: u in AllUses(p, root) ==> KeepsBinding(u, Ahead(p))
  {
    hide Behind, KeepsBinding, Proper, Captured, Settled;
    CapturesAreUses(p, root);
    forall u | u in AllUses(p, root)
      ensures KeepsBinding(u, Ahead(p)) <==> !Captured(u.env, u.name) && !Behind(u, Ahead(p))
    {
      VerdictIsExact(u, Ahead(p));
      KeptExactly(u, Ahead(p));
    }
  }
}
