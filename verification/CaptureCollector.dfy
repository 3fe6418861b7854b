/** The first pass of the capture check: it builds the scopes of a declaration. */
module CaptureCollector {
  import opened Options
  import opened CaptureScopes
  import opened CaptureSites

  /** A scope; scopes are kept in one sequence, and `parent` is a position in it. */
  datatype ScopeInfo = ScopeInfo(kind: ScopeKind, owner: nat, parent: Option<nat>, symbols: set<string>)

  /** What the pass returns: the scopes, and the scope of each node that has one. */
  datatype Tables = Tables(scopes: seq<ScopeInfo>, scopeOf: map<nat, nat>)

  // ----- identities -----

  function Ids(n: Node): set<nat> {
    match n
    case Ident(_, _) => {}
    case Var(_, init) => IdsOf(init)
    case Const(_, init) => IdsOf(init)
    case Let(_, init) => IdsOf(init)
    case Fn(id, _, _, body) => {id} + IdsOf(body)
    case Lambda(id, _, body) => {id} + IdsOf(body)
    case Scope(id, children) => {id} + IdsOf(children)
    case Plain(children) => IdsOf(children)
  }

  function IdsOf(ns: Nodes): set<nat> {
    if ns.Nil? then {} else Ids(ns.head) + IdsOf(ns.tail)
  }

  /** Scope nodes are different objects. */
  predicate Distinct(n: Node) {
    match n
    case Ident(_, _) => true
    case Var(_, init) => DistinctIn(init)
    case Const(_, init) => DistinctIn(init)
    case Let(_, init) => DistinctIn(init)
    case Fn(id, _, _, body) => id !in IdsOf(body) && DistinctIn(body)
    case Lambda(id, _, body) => id !in IdsOf(body) && DistinctIn(body)
    case Scope(id, children) => id !in IdsOf(children) && DistinctIn(children)
    case Plain(children) => DistinctIn(children)
  }

  predicate DistinctIn(ns: Nodes) {
    ns.Cons? ==> Distinct(ns.head) && DistinctIn(ns.tail) && Ids(ns.head) !! IdsOf(ns.tail)
  }

  // ----- what the tables must say -----

  predicate WellFormed(t: Tables) {
    && |t.scopes| > 0
    && (forall k :: 0 <= k < |t.scopes| ==> (t.scopes[k].parent.None? <==> k == 0))
    && (forall k :: 0 < k < |t.scopes| ==> t.scopes[k].parent.value < k)
    && (forall k :: 0 <= k < |t.scopes| ==> (t.scopes[k].kind.GlobalScope? <==> k == 0))
    && (forall id :: id in t.scopeOf ==> 0 < t.scopeOf[id] < |t.scopes|)
  }

  /** Every scope of the node is there: with its kind, its parent and all its names. */
  predicate Recorded(n: Node, at: nat, t: Tables) {
    match n
    case Ident(_, _) => true
    case Var(_, init) => RecordedIn(init, at, t)
    case Const(_, init) => RecordedIn(init, at, t)
    case Let(_, init) => RecordedIn(init, at, t)
    case Fn(id, _, _, body) => HasScope(t, Opened(n), at) && RecordedIn(body, t.scopeOf[id], t)
    case Lambda(id, _, body) => HasScope(t, Opened(n), at) && RecordedIn(body, t.scopeOf[id], t)
    case Scope(id, children) => HasScope(t, Opened(n), at) && RecordedIn(children, t.scopeOf[id], t)
    case Plain(children) => RecordedIn(children, at, t)
  }

  predicate RecordedIn(ns: Nodes, at: nat, t: Tables) {
    ns.Cons? ==> Recorded(ns.head, at, t) && RecordedIn(ns.tail, at, t)
  }

  predicate HasScope(t: Tables, f: Frame, parent: nat) {
    && f.owner in t.scopeOf
    && t.scopeOf[f.owner] < |t.scopes|
    && t.scopes[t.scopeOf[f.owner]] == ScopeInfo(f.kind, f.owner, Some(parent), f.names)
  }

  /** From `a` to `b` scopes for `ids` have been added, and `names` to the scope `at`; nothing else. */
  predicate Grown(a: Tables, b: Tables, ids: set<nat>, at: nat, names: set<string>) {
    && at < |a.scopes| <= |b.scopes|
    && (forall k :: 0 <= k < |a.scopes| && k != at ==> b.scopes[k] == a.scopes[k])
    && b.scopes[at] == a.scopes[at].(symbols := a.scopes[at].symbols + names)
    && b.scopeOf.Keys == a.scopeOf.Keys + ids
    && (forall id :: id in a.scopeOf ==> b.scopeOf[id] == a.scopeOf[id])
    && (forall id :: id in ids ==> |a.scopes| <= b.scopeOf[id] < |b.scopes|)
  }

  lemma GrownTwice(a: Tables, b: Tables, c: Tables, ids1: set<nat>, ids2: set<nat>, at: nat, names1: set<string>,
                   names2: set<string>)
    requires Grown(a, b, ids1, at, names1) && Grown(b, c, ids2, at, names2) && ids2 !! (a.scopeOf.Keys + ids1)
    ensures Grown(a, c, ids1 + ids2, at, names1 + names2)
  {
    assert a.scopes[at].symbols + names1 + names2 == a.scopes[at].symbols + (names1 + names2);
  }

  /** Scopes that are complete stay as they are while their surroundings grow. */
  lemma {:induction false} RecordedStays(n: Node, at: nat, t: Tables, u: Tables, ids: set<nat>, grows: nat, names: set<string>)
    requires Recorded(n, at, t) && Grown(t, u, ids, grows, names)
    requires forall id :: id in Ids(n) ==> id in t.scopeOf && t.scopeOf[id] != grows
    ensures Recorded(n, at, u)
  {
    match n
    case Ident(_, _) =>
    case Var(_, init) => RecordedInStays(init, at, t, u, ids, grows, names);
    case Const(_, init) => RecordedInStays(init, at, t, u, ids, grows, names);
    case Let(_, init) => RecordedInStays(init, at, t, u, ids, grows, names);
    case Fn(id, _, _, body) => RecordedInStays(body, t.scopeOf[id], t, u, ids, grows, names);
    case Lambda(id, _, body) => RecordedInStays(body, t.scopeOf[id], t, u, ids, grows, names);
    case Scope(id, children) => RecordedInStays(children, t.scopeOf[id], t, u, ids, grows, names);
    case Plain(children) => RecordedInStays(children, at, t, u, ids, grows, names);
  }

  lemma {:induction false} RecordedInStays(ns: Nodes, at: nat, t: Tables, u: Tables, ids: set<nat>, grows: nat,
                                           names: set<string>)
    requires RecordedIn(ns, at, t) && Grown(t, u, ids, grows, names)
    requires forall id :: id in IdsOf(ns) ==> id in t.scopeOf && t.scopeOf[id] != grows
    ensures RecordedIn(ns, at, u)
  {
    hide Grown;
    if ns.Cons? {
      RecordedStays(ns.head, at, t, u, ids, grows, names);
      RecordedInStays(ns.tail, at, t, u, ids, grows, names);
    }
  }

  /** A new scope, filled: seen from its parent, only new identities have appeared. */
  lemma OpenedAndFilled(a: Tables, b: Tables, c: Tables, f: Frame, params: set<string>, at: nat, ids: set<nat>,
                        names: set<string>)
    requires WellFormed(a) && at < |a.scopes| && f.owner !in a.scopeOf && f.owner !in ids && ids !! a.scopeOf.Keys
    requires f.names == params + names
    requires b == Tables(a.scopes + [ScopeInfo(f.kind, f.owner, Some(at), params)], a.scopeOf[f.owner := |a.scopes|])
    requires Grown(b, c, ids, |a.scopes|, names)
    ensures Grown(a, c, {f.owner} + ids, at, {})
    ensures HasScope(c, f, at) && c.scopeOf[f.owner] == |a.scopes|
  {
    assert a.scopes[at].symbols + {} == a.scopes[at].symbols;
  }

  lemma NothingGrown(t: Tables, at: nat)
    requires at < |t.scopes|
    ensures Grown(t, t, {}, at, {})
  {
    assert t.scopes[at].symbols + {} == t.scopes[at].symbols;
  }

  lemma KeysOf(a: Tables, b: Tables, ids: set<nat>, at: nat, names: set<string>)
    requires Grown(a, b, ids, at, names)
    ensures b.scopeOf.Keys == a.scopeOf.Keys + ids
  {}

  lemma SameKeys(a: Tables, b: Tables, at: nat, names: set<string>)
    requires Grown(a, b, {}, at, names)
    ensures b.scopeOf.Keys == a.scopeOf.Keys
  {}

  lemma GrowAndStay(ns: Nodes, a: Tables, b: Tables, c: Tables, ids: set<nat>, at: nat, names1: set<string>,
                    names2: set<string>)
    requires Grown(a, b, IdsOf(ns), at, names1) && RecordedIn(ns, at, b) && Grown(b, c, ids, at, names2)
    requires ids !! (a.scopeOf.Keys + IdsOf(ns))
    ensures Grown(a, c, IdsOf(ns) + ids, at, names1 + names2) && RecordedIn(ns, at, c)
  {
    hide RecordedIn;
    RecordedInStays(ns, at, b, c, ids, at, names2);
    GrownTwice(a, b, c, IdsOf(ns), ids, at, names1, names2);
  }

  lemma HeadStays(n: Node, a: Tables, b: Tables, c: Tables, ids: set<nat>, at: nat, names1: set<string>,
                  names2: set<string>)
    requires Grown(a, b, Ids(n), at, names1) && Recorded(n, at, b) && Grown(b, c, ids, at, names2)
    requires ids !! (a.scopeOf.Keys + Ids(n))
    ensures Grown(a, c, Ids(n) + ids, at, names1 + names2) && Recorded(n, at, c)
  {
    hide Recorded;
    RecordedStays(n, at, b, c, ids, at, names2);
    GrownTwice(a, b, c, Ids(n), ids, at, names1, names2);
  }

  /** The lambdas, in the order in which they are met. */
  function LambdasOf(n: Node): seq<nat> {
    match n
    case Ident(_, _) => []
    case Var(_, init) => LambdasIn(init)
    case Const(_, init) => LambdasIn(init)
    case Let(_, init) => LambdasIn(init)
    case Fn(_, _, _, body) => LambdasIn(body)
    case Lambda(id, _, body) => [id] + LambdasIn(body)
    case Scope(_, children) => LambdasIn(children)
    case Plain(children) => LambdasIn(children)
  }

  function LambdasIn(ns: Nodes): seq<nat> {
    if ns.Nil? then [] else LambdasOf(ns.head) + LambdasIn(ns.tail)
  }

  lemma {:induction false} StandingAreListed(d: Node, ns: Nodes, id: nat)
    requires StandsIn(d, ns) && id in LambdasOf(d)
    ensures id in LambdasIn(ns)
  {
    hide LambdasOf;
    if Stands(d, ns.head) {
      PartsAreListed(d, ns.head, id);
    } else {
      StandingAreListed(d, ns.tail, id);
    }
  }

  lemma {:induction false} PartsAreListed(d: Node, n: Node, id: nat)
    requires Stands(d, n) && id in LambdasOf(d)
    ensures id in LambdasOf(n)
  {
    if d != n {
      match n
      case Var(_, init) => StandingAreListed(d, init, id);
      case Const(_, init) => StandingAreListed(d, init, id);
      case Let(_, init) => StandingAreListed(d, init, id);
      case Plain(children) => StandingAreListed(d, children, id);
    }
  }

  lemma {:induction false} ChainIsListed(chain: seq<Node>, l: Node, ns: Nodes)
    requires Leads(chain, l, ns) && l.Lambda?
    ensures l.id in LambdasIn(ns)
    decreases |chain|
  {
    if chain == [] {
      StandingAreListed(l, ns, l.id);
    } else {
      var outer := chain[|chain| - 1];
      ChainIsListed(chain[..|chain| - 1], l, Body(outer));
      StandingAreListed(outer, ns, l.id);
    }
  }

  /** The chain leads there through a part of the node, or through its body. */
  lemma ThroughPart(chain: seq<Node>, l: Node, part: Nodes, whole: Nodes)
    requires Leads(chain, l, part) && forall d :: StandsIn(d, part) ==> StandsIn(d, whole)
    ensures Leads(chain, l, whole)
  {}

  lemma ThroughBody(chain: seq<Node>, l: Node, n: Node)
    requires Opens(n) && Leads(chain, l, Body(n))
    ensures Leads(chain + [n], l, Cons(n, Nil))
  {
    assert (chain + [n])[..|chain|] == chain;
  }

  lemma {:induction false} ListedInPart(n: Node, part: Nodes, id: nat) returns (chain: seq<Node>, l: Node)
    requires part < n && id in LambdasIn(part) && forall d :: StandsIn(d, part) ==> Stands(d, n)
    ensures Leads(chain, l, Cons(n, Nil)) && l.Lambda? && l.id == id
    decreases n, 0
  {
    hide Leads, Stands;
    chain, l := ListedIn(part, id);
    ThroughPart(chain, l, part, Cons(n, Nil));
  }

  lemma {:induction false} ListedInBody(n: Node, id: nat) returns (chain: seq<Node>, l: Node)
    requires Opens(n) && id in LambdasIn(Body(n))
    ensures Leads(chain, l, Cons(n, Nil)) && l.Lambda? && l.id == id
    decreases n, 0
  {
    chain, l := ListedIn(Body(n), id);
    ThroughBody(chain, l, n);
    chain := chain + [n];
  }

  lemma {:induction false} ListedAt(n: Node, id: nat) returns (chain: seq<Node>, l: Node)
    requires id in LambdasOf(n)
    ensures Leads(chain, l, Cons(n, Nil)) && l.Lambda? && l.id == id
    decreases n, 1
  {
    match n
    case Var(_, init) => chain, l := ListedInPart(n, init, id);
    case Const(_, init) => chain, l := ListedInPart(n, init, id);
    case Let(_, init) => chain, l := ListedInPart(n, init, id);
    case Plain(children) => chain, l := ListedInPart(n, children, id);
    case Fn(_, _, _, _) => chain, l := ListedInBody(n, id);
    case Scope(_, _) => chain, l := ListedInBody(n, id);
    case Lambda(own, _, _) =>
      if own == id {
        chain, l := [], n;
        assert StandsIn(n, Cons(n, Nil));
      } else {
        chain, l := ListedInBody(n, id);
      }
  }

  lemma {:induction false} ListedIn(ns: Nodes, id: nat) returns (chain: seq<Node>, l: Node)
    requires id in LambdasIn(ns)
    ensures Leads(chain, l, ns) && l.Lambda? && l.id == id
    decreases ns
  {
    hide Leads, Stands, LambdasOf;
    if id in LambdasOf(ns.head) {
      chain, l := ListedAt(ns.head, id);
      ThroughPart(chain, l, Cons(ns.head, Nil), ns);
    } else {
      chain, l := ListedIn(ns.tail, id);
      ThroughPart(chain, l, ns.tail, ns);
    }
  }

  /** At the end of the chain stands a lambda with this identity. */
  predicate LambdaAt(chain: seq<Node>, l: Node, ns: Nodes, id: nat) {
    Leads(chain, l, ns) && l.Lambda? && l.id == id
  }

  /** Listed are exactly the lambdas that stand anywhere in the declaration. */
  lemma LambdasExactly(root: Node, id: nat)
    ensures id in LambdasOf(root) <==> exists chain, l :: LambdaAt(chain, l, Cons(root, Nil), id)
  {
    var ns := Cons(root, Nil);
    assert LambdasIn(ns) == LambdasOf(root) + [];
    forall chain, l | LambdaAt(chain, l, ns, id) ensures id in LambdasOf(root) {
      ChainIsListed(chain, l, ns);
    }
    if id in LambdasOf(root) {
      var chain, l := ListedAt(root, id);
      assert LambdaAt(chain, l, ns, id);
    }
  }

  class Collector {
    var result: Tables
    var current: nat
    var lambdas: seq<nat>

    ghost predicate Valid()
      reads this
    {
      WellFormed(result) && current < |result.scopes|
    }

    constructor ()
      ensures Valid() && result == Tables([ScopeInfo(GlobalScope, 0, None, {})], map[]) && current == 0 && lambdas == []
    {
      result := Tables([ScopeInfo(GlobalScope, 0, None, {})], map[]);
      current := 0;
      lambdas := [];
    }

    method Declare(name: string)
      requires Valid()
      modifies this
      ensures Valid() && current == old(current) && lambdas == old(lambdas)
      ensures Grown(old(result), result, {}, current, {name})
    {
      var s := result.scopes[current];
      result := result.(scopes := result.scopes[current := s.(symbols := s.symbols + {name})]);
    }

    /** A scope below the current one, with its parameters; it becomes the current one. */
    method OpenScope(kind: ScopeKind, id: nat, params: seq<string>)
      requires Valid() && id !in result.scopeOf && !kind.GlobalScope?
      modifies this
      ensures Valid() && current == |old(result).scopes| && lambdas == old(lambdas)
      ensures result == Tables(old(result).scopes + [ScopeInfo(kind, id, Some(old(current)), Set(params))],
                               old(result).scopeOf[id := |old(result).scopes|])
    {
      var k := |result.scopes|;
      result := Tables(result.scopes + [ScopeInfo(kind, id, Some(current), {})], result.scopeOf[id := k]);
      current := k;
      var i := 0;
      assert Set(params[..0]) == {};
      while i < |params|
        invariant 0 <= i <= |params| && Valid() && current == k && lambdas == old(lambdas)
        invariant result == Tables(old(result).scopes + [ScopeInfo(kind, id, Some(old(current)), Set(params[..i]))],
                                   old(result).scopeOf[id := k])
      {
        assert Set(params[..i + 1]) == Set(params[..i]) + {params[i]};
        var s := result.scopes[k];
        result := result.(scopes := result.scopes[k := s.(symbols := s.symbols + {params[i]})]);
        i := i + 1;
      }
      assert params[..|params|] == params;
    }

    /** The names of a let; `_` declares nothing. */
    method DeclareAll(names: seq<string>)
      requires Valid()
      modifies this
      ensures Valid() && current == old(current) && lambdas == old(lambdas)
      ensures Grown(old(result), result, {}, current, Set(names) - {"_"})
    {
      hide Grown;
      var i := 0;
      NothingGrown(result, current);
      assert Set(names[..0]) - {"_"} == {};
      while i < |names|
        invariant 0 <= i <= |names| && Valid() && current == old(current) && lambdas == old(lambdas)
        invariant Grown(old(result), result, {}, current, Set(names[..i]) - {"_"})
      {
        ghost var t := result;
        assert Set(names[..i + 1]) == Set(names[..i]) + {names[i]};
        if names[i] != "_" {
          Declare(names[i]);
          ghost var none: set<nat> := {};
          GrownTwice(old(result), t, result, none, none, current, Set(names[..i]) - {"_"}, {names[i]});
          assert none + none == none;
          assert Set(names[..i + 1]) - {"_"} == Set(names[..i]) - {"_"} + {names[i]};
        } else {
          assert Set(names[..i + 1]) - {"_"} == Set(names[..i]) - {"_"};
        }
        i := i + 1;
      }
      assert names[..|names|] == names;
    }

    method Visit(n: Node)
      requires Valid() && Distinct(n) && Ids(n) !! result.scopeOf.Keys
      modifies this
      ensures Valid() && current == old(current)
      ensures Grown(old(result), result, Ids(n), current, Declared(n))
      ensures Recorded(n, current, result)
      ensures lambdas == old(lambdas) + LambdasOf(n)
      decreases n, 1
    {
      hide RecordedIn, Grown, HasScope;
      match n
      case Ident(_, _) =>
        NothingGrown(result, current);
      case Const(_, init) =>
        VisitAll(init);
      case Plain(children) =>
        VisitAll(children);
      case Var(name, init) =>
        VisitAll(init);
        ghost var t := result;
        Declare(name);
        GrowAndStay(init, old(result), t, result, {}, current, DeclaredBy(init), {name});
        assert IdsOf(init) + {} == Ids(n);
      case Let(names, init) =>
        VisitAll(init);
        ghost var t := result;
        DeclareAll(names);
        GrowAndStay(init, old(result), t, result, {}, current, DeclaredBy(init), Set(names) - {"_"});
        assert IdsOf(init) + {} == Ids(n);
      case Fn(id, name, params, body) =>
        Declare(name);
        ghost var t := result;
        SameKeys(old(result), t, current, {name});
        VisitScope(n, FunctionScope, id, params, body);
        GrownTwice(old(result), t, result, {}, Ids(n), current, {name}, {});
        assert {} + Ids(n) == Ids(n) && {name} + {} == Declared(n);
      case Lambda(id, params, body) =>
        lambdas := lambdas + [id];
        VisitScope(n, LambdaScope, id, params, body);
      case Scope(id, children) =>
        VisitScope(n, BlockScope, id, [], children);
    }

    method VisitAll(ns: Nodes)
      requires Valid() && DistinctIn(ns) && IdsOf(ns) !! result.scopeOf.Keys
      modifies this
      ensures Valid() && current == old(current)
      ensures Grown(old(result), result, IdsOf(ns), current, DeclaredBy(ns))
      ensures RecordedIn(ns, current, result)
      ensures lambdas == old(lambdas) + LambdasIn(ns)
      decreases ns, 1
    {
      hide Recorded, Grown, Declared, Ids, Distinct;
      if ns.Nil? {
        NothingGrown(result, current);
      } else {
        Visit(ns.head);
        ghost var t := result;
        KeysOf(old(result), t, Ids(ns.head), current, Declared(ns.head));
        VisitAll(ns.tail);
        HeadStays(ns.head, old(result), t, result, IdsOf(ns.tail), current, Declared(ns.head), DeclaredBy(ns.tail));
      }
    }

    method VisitScope(n: Node, kind: ScopeKind, id: nat, params: seq<string>, body: Nodes)
      requires n.Fn? || n.Lambda? || n.Scope?
      requires Opened(n) == Frame(kind, id, Set(params) + DeclaredBy(body)) && Ids(n) == {id} + IdsOf(body)
      requires Valid() && id !in IdsOf(body) && DistinctIn(body) && Ids(n) !! result.scopeOf.Keys && body < n
      modifies this
      ensures Valid() && current == old(current)
      ensures Grown(old(result), result, Ids(n), current, {})
      ensures HasScope(result, Opened(n), current)
      ensures RecordedIn(body, result.scopeOf[id], result)
      ensures lambdas == old(lambdas) + LambdasIn(body)
      decreases n, 0
    {
      hide RecordedIn, Grown, Declared, Ids, IdsOf, DistinctIn, LambdasIn, DeclaredBy;
      var previous := current;
      OpenScope(kind, id, params);
      ghost var t := result;
      VisitAll(body);
      OpenedAndFilled(old(result), t, result, Opened(n), Set(params), previous, IdsOf(body), DeclaredBy(body));
      current := previous;
    }
  }
}
