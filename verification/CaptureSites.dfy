/** What the capture check reports, said about the text alone: without tables, frames and lookups. */
module CaptureSites {
  import opened CaptureScopes

  /** `chain` are the nodes that open a scope on the way from `ns` down to `d`, innermost first. */
  predicate Leads(chain: seq<Node>, d: Node, ns: Nodes)
    decreases |chain|
  {
    if chain == [] then StandsIn(d, ns)
    else
      var outer := chain[|chain| - 1];
      Opens(outer) && StandsIn(outer, ns) && Leads(chain[..|chain| - 1], d, Body(outer))
  }

  /** Of the scopes of the chain that declare the name the nearest lies outside the innermost lambda. */
  ghost predicate Escapes(chain: seq<Node>, lambda: nat, name: string) {
    && (forall i :: 0 <= i < |chain| ==> Opens(chain[i]))
    && (exists l, i :: 0 <= l < i < |chain|
         && chain[l].Lambda? && chain[l].id == lambda && (forall j :: 0 <= j < l ==> !chain[j].Lambda?)
         && Declares(chain[i], name) && (forall j :: 0 <= j < i ==> !Declares(chain[j], name)))
  }

  // ----- every use stands at the end of a chain -----

  /** The use stands below `ns`, at the end of the chain of its scopes inside the given ones. */
  predicate Located(u: Use, ns: Nodes, scopes: seq<Node>) {
    var k := |u.scopes| - |scopes|;
    k >= 0 && u.scopes[k..] == scopes && Leads(u.scopes[..k], Ident(u.id, u.name), ns)
  }

  lemma LocatedInPart(u: Use, part: Nodes, whole: Nodes, scopes: seq<Node>)
    requires Located(u, part, scopes) && forall e :: StandsIn(e, part) ==> StandsIn(e, whole)
    ensures Located(u, whole, scopes)
  {}

  lemma LocatedInScope(u: Use, n: Node, scopes: seq<Node>)
    requires Opens(n) && Located(u, Body(n), [n] + scopes)
    ensures Located(u, Cons(n, Nil), scopes)
  {
    var k := |u.scopes| - |scopes|;
    assert u.scopes[k - 1] == u.scopes[k - 1..][0] == n;
    assert u.scopes[..k][..k - 1] == u.scopes[..k - 1];
    assert u.scopes[k..] == u.scopes[k - 1..][1..] == scopes;
  }

  lemma {:induction false} UsesAreLocated(n: Node, scopes: seq<Node>, env: seq<Frame>, seen: seq<set<string>>)
    ensures forall u :: u in Uses(n, scopes, env, seen) ==> Located(u, Cons(n, Nil), scopes)
    decreases n, 1
  {
    hide Located;
    match n
    case Ident(id, name) =>
      IdentIsLocated(Use(id, name, scopes, env, seen), n, scopes);
    case Var(_, init) => PartsAreLocated(n, init, scopes, env, seen);
    case Const(_, init) => PartsAreLocated(n, init, scopes, env, seen);
    case Let(_, init) => PartsAreLocated(n, init, scopes, env, seen);
    case Fn(_, name, params, body) =>
      BodyIsLocated(n, scopes, [Opened(n)] + env, [Set(params)] + Add(seen, {name}));
    case Lambda(_, params, body) => BodyIsLocated(n, scopes, [Opened(n)] + env, [Set(params)] + seen);
    case Scope(_, children) => BodyIsLocated(n, scopes, [Opened(n)] + env, [{}] + seen);
    case Plain(children) => PartsAreLocated(n, children, scopes, env, seen);
  }

  lemma IdentIsLocated(u: Use, n: Node, scopes: seq<Node>)
    requires n == Ident(u.id, u.name) && u.scopes == scopes
    ensures Located(u, Cons(n, Nil), scopes)
  {
    assert u.scopes[..0] == [];
  }

  lemma {:induction false} PartsAreLocated(n: Node, parts: Nodes, scopes: seq<Node>, env: seq<Frame>,
                                           seen: seq<set<string>>)
    requires parts < n && forall e :: StandsIn(e, parts) ==> Stands(e, n)
    ensures forall u :: u in UsesIn(parts, scopes, env, seen) ==> Located(u, Cons(n, Nil), scopes)
    decreases n, 0
  {
    hide Located, Stands;
    UsesInAreLocated(parts, scopes, env, seen);
    assert forall e :: Stands(e, n) ==> StandsIn(e, Cons(n, Nil));
    forall u | u in UsesIn(parts, scopes, env, seen) ensures Located(u, Cons(n, Nil), scopes) {
      LocatedInPart(u, parts, Cons(n, Nil), scopes);
    }
  }

  lemma {:induction false} BodyIsLocated(n: Node, scopes: seq<Node>, env: seq<Frame>, seen: seq<set<string>>)
    requires Opens(n)
    ensures forall u :: u in UsesIn(Body(n), [n] + scopes, env, seen) ==> Located(u, Cons(n, Nil), scopes)
    decreases n, 0
  {
    hide Located;
    UsesInAreLocated(Body(n), [n] + scopes, env, seen);
    forall u | u in UsesIn(Body(n), [n] + scopes, env, seen) ensures Located(u, Cons(n, Nil), scopes) {
      LocatedInScope(u, n, scopes);
    }
  }

  lemma {:induction false} UsesInAreLocated(ns: Nodes, scopes: seq<Node>, env: seq<Frame>, seen: seq<set<string>>)
    ensures forall u :: u in UsesIn(ns, scopes, env, seen) ==> Located(u, ns, scopes)
    decreases ns
  {
    hide Located, Stands, Uses;
    if ns.Cons? {
      UsesAreLocated(ns.head, scopes, env, seen);
      var s := Add(seen, Bound(ns.head));
      UsesInAreLocated(ns.tail, scopes, env, s);
      forall u | u in UsesIn(ns, scopes, env, seen) ensures Located(u, ns, scopes) {
        if u in Uses(ns.head, scopes, env, seen) {
          LocatedInPart(u, Cons(ns.head, Nil), ns, scopes);
        } else {
          LocatedInPart(u, ns.tail, ns, scopes);
        }
      }
    }
  }

  // ----- at the end of every chain stands a use -----

  /** What stands in a scope is visited in it. */
  lemma {:induction false} VisitedIn(d: Node, ns: Nodes, scopes: seq<Node>, env: seq<Frame>, seen: seq<set<string>>)
    returns (s: seq<set<string>>)
    requires StandsIn(d, ns)
    ensures forall u :: u in Uses(d, scopes, env, s) ==> u in UsesIn(ns, scopes, env, seen)
  {
    hide Uses, Stands;
    if Stands(d, ns.head) {
      s := VisitedAt(d, ns.head, scopes, env, seen);
    } else {
      s := VisitedIn(d, ns.tail, scopes, env, Add(seen, Bound(ns.head)));
    }
  }

  lemma {:induction false} VisitedAt(d: Node, n: Node, scopes: seq<Node>, env: seq<Frame>, seen: seq<set<string>>)
    returns (s: seq<set<string>>)
    requires Stands(d, n)
    ensures forall u :: u in Uses(d, scopes, env, s) ==> u in Uses(n, scopes, env, seen)
  {
    if d == n {
      s := seen;
    } else {
      match n
      case Var(_, init) => s := VisitedIn(d, init, scopes, env, seen);
      case Const(_, init) => s := VisitedIn(d, init, scopes, env, seen);
      case Let(_, init) => s := VisitedIn(d, init, scopes, env, seen);
      case Plain(children) => s := VisitedIn(d, children, scopes, env, seen);
    }
  }

  /** What has been declared at the start of a scope. */
  function Entered(n: Node, seen: seq<set<string>>): seq<set<string>>
    requires Opens(n)
  {
    match n
    case Fn(_, name, params, _) => [Set(params)] + Add(seen, {name})
    case Lambda(_, params, _) => [Set(params)] + seen
    case Scope(_, _) => [{}] + seen
  }

  lemma UsesInside(n: Node, scopes: seq<Node>, env: seq<Frame>, seen: seq<set<string>>)
    requires Opens(n)
    ensures Uses(n, scopes, env, seen) == UsesIn(Body(n), [n] + scopes, [Opened(n)] + env, Entered(n, seen))
  {}

  lemma {:induction false} UseAt(chain: seq<Node>, id: nat, name: string, ns: Nodes, scopes: seq<Node>,
                                 env: seq<Frame>, seen: seq<set<string>>) returns (u: Use)
    requires Leads(chain, Ident(id, name), ns)
    ensures u in UsesIn(ns, scopes, env, seen) && u.id == id && u.name == name && u.scopes == chain + scopes
    decreases |chain|
  {
    hide StandsIn, UsesIn, Opened, Entered;
    var d := if chain == [] then Ident(id, name) else chain[|chain| - 1];
    var s := VisitedIn(d, ns, scopes, env, seen);
    if chain == [] {
      u := Use(id, name, scopes, env, s);
      assert chain + scopes == scopes;
      assert u in Uses(d, scopes, env, s);
    } else {
      UsesInside(d, scopes, env, s);
      hide Uses;
      var inner := chain[..|chain| - 1];
      u := UseAt(inner, id, name, Body(d), [d] + scopes, [Opened(d)] + env, Entered(d, s));
      assert inner + ([d] + scopes) == chain + scopes;
    }
  }

  // ----- what is reported -----

  lemma CapturedEscapes(u: Use, ahead: set<string>, lambda: nat)
    requires Proper(u, ahead)
    ensures Catches(u, lambda) <==> Escapes(u.scopes, lambda, u.name)
  {
    hide Declares;
    forall i | 0 <= i < |u.scopes|
      ensures u.name in Names(u.env)[i] <==> Declares(u.scopes[i], u.name)
      ensures u.env[i].kind.LambdaScope? <==> u.scopes[i].Lambda?
      ensures u.env[i].owner == u.scopes[i].id
    {
      OpenedExactly(u.scopes[i], u.name);
    }
    var l, i := Innermost(u.env), Nearest(Names(u.env), u.name);
    if Captured(u.env, u.name) {
      assert u.scopes[l].Lambda? && Declares(u.scopes[i], u.name);
    }
  }

  /** A capture is reported exactly when its use stands in a lambda and of the scopes around it that declare the name,
      early or late, the nearest lies outside the innermost lambda. */
  lemma CapturesExactly(root: Node, lambda: nat, name: string, id: nat)
    ensures Capture(lambda, name, id) in Captures(root, [GlobalFrame(root)]) <==>
            exists chain :: Leads(chain, Ident(id, name), Cons(root, Nil)) && Escapes(chain, lambda, name)
  {
    hide Catches, Captures, Uses, Escapes, Leads, ProperScopes, Reports;
    var env, us := [GlobalFrame(root)], AllUses([], root);
    CapturesOfUses(root, [], env, [Globals([])]);
    ReportedExactly(us, Capture(lambda, name, id));
    AllUsesAreProper([], root);
    UsesAreLocated(root, [], env, [Globals([])]);
    forall u | u in us
      ensures Catches(u, lambda) <==> Escapes(u.scopes, lambda, u.name)
      ensures Leads(u.scopes, Ident(u.id, u.name), Cons(root, Nil))
    {
      CapturedEscapes(u, Ahead([]), lambda);
      assert u.scopes[..|u.scopes|] == u.scopes;
    }
    forall chain | Leads(chain, Ident(id, name), Cons(root, Nil)) && Escapes(chain, lambda, name)
      ensures Capture(lambda, name, id) in Captures(root, env)
    {
      var u := UseAt(chain, id, name, Cons(root, Nil), [], env, [Globals([])]);
      assert chain + [] == chain && u in us;
    }
  }

  lemma {:induction false} LeadsThroughScopes(chain: seq<Node>, d: Node, ns: Nodes)
    requires Leads(chain, d, ns)
    ensures forall i :: 0 <= i < |chain| ==> Opens(chain[i])
    decreases |chain|
  {
    if chain != [] {
      LeadsThroughScopes(chain[..|chain| - 1], d, Body(chain[|chain| - 1]));
      assert forall i :: 0 <= i < |chain| - 1 ==> chain[i] == chain[..|chain| - 1][i];
    }
  }

  /** So a lambda that names a parameter, a variable or a name of a let of a function around it, which nothing nearer
      declares, is reported. */
  lemma OuterNameIsReported(root: Node, chain: seq<Node>, l: nat, i: nat, d: Node, name: string, id: nat)
    requires Leads(chain, Ident(id, name), Cons(root, Nil)) && l < i < |chain|
    requires forall j :: 0 <= j < |chain| ==> Opens(chain[j])
    requires chain[l].Lambda? && forall j :: 0 <= j < l ==> !chain[j].Lambda?
    requires name in Params(chain[i]) ||
             (StandsIn(d, Body(chain[i])) && ((d.Var? && d.name == name) || (d.Let? && name in d.names && name != "_")))
    requires forall j :: 0 <= j < i ==> !Declares(chain[j], name)
    ensures Capture(chain[l].id, name, id) in Captures(root, [GlobalFrame(root)])
  {
    hide Leads, Captures, StandsIn;
    CapturesExactly(root, chain[l].id, name, id);
    assert Declares(chain[i], name);
    assert Escapes(chain, chain[l].id, name);
  }

  // ----- the order of the text -----

  function Append(a: Nodes, b: Nodes): Nodes {
    if a.Nil? then b else Cons(a.head, Append(a.tail, b))
  }

  /** What comes later in a scope sees all that has been declared there before, and what comes first nothing of it. */
  lemma {:induction false} LaterSeesEarlier(a: Nodes, b: Nodes, scopes: seq<Node>, env: seq<Frame>,
                                            seen: seq<set<string>>)
    ensures UsesIn(Append(a, b), scopes, env, seen) ==
            UsesIn(a, scopes, env, seen) + UsesIn(b, scopes, env, Add(seen, DeclaredBy(a) + ConstsIn(a)))
  {
    hide Uses, Bound;
    ConstsInAreMissing(a);
    if a.Nil? {
      AddNothing(seen);
    } else {
      var s := Add(seen, Bound(a.head));
      LaterSeesEarlier(a.tail, b, scopes, env, s);
      ConstsInAreMissing(a.tail);
      AddTwice(seen, Bound(a.head), BoundBy(a.tail));
    }
  }

  lemma AddNothing(seen: seq<set<string>>)
    ensures Add(seen, {}) == seen
  {
    assert seen != [] ==> seen[0] + {} == seen[0];
  }

  lemma AddTwice(seen: seq<set<string>>, a: set<string>, b: set<string>)
    ensures Add(Add(seen, a), b) == Add(seen, a + b)
  {
    assert seen != [] ==> seen[0] + a + b == seen[0] + (a + b);
  }
}
