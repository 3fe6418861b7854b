/** The second pass of the capture check: it walks the declaration again and looks every name up. */
module CaptureValidator {
  import opened Options
  import opened CaptureScopes
  import opened CaptureCollector
  import opened CaptureSites

  function FrameOf(s: ScopeInfo): Frame {
    Frame(s.kind, s.owner, s.symbols)
  }

  /** A scope and the scopes around it, as positions. */
  function Ancestors(t: Tables, k: nat): (r: seq<nat>)
    requires WellFormed(t) && k < |t.scopes|
    ensures |r| > 0 && r[0] == k
    ensures forall i :: 0 <= i < |r| ==> r[i] <= k
    decreases k
  {
    [k] + if t.scopes[k].parent.None? then [] else Ancestors(t, t.scopes[k].parent.value)
  }

  function Env(t: Tables, k: nat): (r: seq<Frame>)
    requires WellFormed(t) && k < |t.scopes|
    ensures |r| == |Ancestors(t, k)|
    ensures forall i :: 0 <= i < |r| ==> r[i] == FrameOf(t.scopes[Ancestors(t, k)[i]])
    decreases k
  {
    [FrameOf(t.scopes[k])] + if t.scopes[k].parent.None? then [] else Env(t, t.scopes[k].parent.value)
  }

  /** Walking up ends at the global scope and never meets a scope twice. */
  lemma {:induction false} Upwards(t: Tables, k: nat, i: nat)
    requires WellFormed(t) && k < |t.scopes| && i < |Ancestors(t, k)|
    ensures var a := Ancestors(t, k);
            && t.scopes[a[i]].parent == (if i + 1 < |a| then Some(a[i + 1]) else None)
            && (forall j :: i < j < |a| ==> a[j] < a[i])
    decreases k
  {
    if i > 0 {
      Upwards(t, t.scopes[k].parent.value, i - 1);
    }
  }

  /** A lookup finds the scope of its node one step further in. */
  lemma EnvOfOpened(t: Tables, f: Frame, at: nat)
    requires WellFormed(t) && at < |t.scopes| && HasScope(t, f, at)
    ensures Env(t, t.scopeOf[f.owner]) == [f] + Env(t, at)
    ensures Ancestors(t, t.scopeOf[f.owner]) == [t.scopeOf[f.owner]] + Ancestors(t, at)
  {}

  class Validator {
    const symbols: Tables
    var current: nat
    var lambda: Option<nat>
    var errors: seq<Capture>

    /** `lambda` is the innermost lambda around the current scope. */
    ghost predicate Valid()
      reads this
    {
      && WellFormed(symbols) && current < |symbols.scopes|
      && var env := Env(symbols, current);
         var l := Innermost(env);
         if l == |env| then lambda == None
         else lambda == Some(env[l].owner) && env[l].owner in symbols.scopeOf
              && symbols.scopeOf[env[l].owner] == Ancestors(symbols, current)[l]
    }

    constructor (symbols: Tables)
      requires WellFormed(symbols)
      ensures Valid() && this.symbols == symbols && current == 0 && errors == []
    {
      this.symbols := symbols;
      current := 0;
      lambda := None;
      errors := [];
      new;
      assert Env(symbols, 0) == [FrameOf(symbols.scopes[0])];
    }

    /** The scope that declares the name, from the current one outwards, as its position among the ancestors. */
    method Search(name: string) returns (found: Option<nat>, ghost i: nat)
      requires Valid()
      ensures i == Nearest(Names(Env(symbols, current)), name)
      ensures var n := Nearest(Names(Env(symbols, current)), name);
              found == if n < |Env(symbols, current)| then Some(Ancestors(symbols, current)[n]) else None
    {
      hide Ancestors, Env, Innermost, Nearest;
      var scope: Option<nat> := Some(current);
      ghost var a := Ancestors(symbols, current);
      ghost var env := Env(symbols, current);
      found := None;
      i := 0;
      while scope.Some? && found.None?
        invariant i <= |a| && scope == if i < |a| then Some(a[i]) else None
        invariant forall j :: 0 <= j < i ==> name !in env[j].names
        invariant found.Some? ==> i < |a| && found == Some(a[i]) && name in env[i].names
        decreases |a| - i, found.None?
      {
        Upwards(symbols, current, i);
        if name in symbols.scopes[scope.value].symbols {
          found := scope;
        } else {
          scope := symbols.scopes[scope.value].parent;
          i := i + 1;
        }
      }
      NearestIs(Names(env), name, i);
    }

    /** Whether the lambda is met on the way from a scope outwards. */
    method IsLocal(found: nat, ghost i: nat, lambdaScope: nat, ghost l: nat) returns (local: bool)
      requires Valid() && i < |Ancestors(symbols, current)| && found == Ancestors(symbols, current)[i]
      requires l < |Ancestors(symbols, current)| - 1 && lambdaScope == Ancestors(symbols, current)[l]
      ensures local == (i <= l)
    {
      hide Ancestors, Env, Innermost;
      var check: Option<nat> := Some(found);
      ghost var a := Ancestors(symbols, current);
      ghost var j := i;
      local := false;
      Upwards(symbols, current, l);
      while check.Some?
        invariant i <= j <= |a| && check == if j < |a| then Some(a[j]) else None
        invariant !(i <= l < j)
        decreases |a| - j
      {
        Upwards(symbols, current, j);
        if check.value == lambdaScope {
          local := true;
          return;
        }
        if symbols.scopes[check.value].kind.GlobalScope? {
          return;
        }
        check := symbols.scopes[check.value].parent;
        j := j + 1;
      }
    }

    method VisitIdentifier(id: nat, name: string)
      requires Valid()
      modifies `errors
      ensures Valid()
      ensures var env := Env(symbols, current);
              errors == old(errors) +
                if Captured(env, name) then [Capture(env[Innermost(env)].owner, name, id)] else []
    {
      hide Ancestors, Env, Innermost, Nearest, WellFormed;
      if lambda.None? {
        return;
      }
      var found, i := Search(name);
      if found.None? {
        return;
      }
      if symbols.scopes[found.value].kind.GlobalScope? {
        return;
      }
      var lambdaScope := symbols.scopeOf[lambda.value];
      ghost var l := Innermost(Env(symbols, current));
      LambdaIsInside(symbols, current, l);
      var local := IsLocal(found.value, i, lambdaScope, l);
      if !local {
        errors := errors + [Capture(lambda.value, name, id)];
      }
    }

    method Visit(n: Node)
      requires Valid() && Recorded(n, current, symbols)
      modifies `current, `lambda, `errors
      ensures Valid() && current == old(current) && lambda == old(lambda)
      ensures errors == old(errors) + Captures(n, Env(symbols, current))
      decreases n, 1
    {
      hide Captured, HasScope, RecordedIn, CapturesIn, WellFormed, Env;
      match n
      case Ident(id, name) => VisitIdentifier(id, name);
      case Var(_, init) => VisitAll(init);
      case Const(_, init) => VisitAll(init);
      case Let(_, init) => VisitAll(init);
      case Fn(_, _, _, body) => VisitScope(n, body);
      case Lambda(_, _, body) => VisitScope(n, body);
      case Scope(_, children) => VisitScope(n, children);
      case Plain(children) => VisitAll(children);
    }

    method VisitAll(ns: Nodes)
      requires Valid() && RecordedIn(ns, current, symbols)
      modifies `current, `lambda, `errors
      ensures Valid() && current == old(current) && lambda == old(lambda)
      ensures errors == old(errors) + CapturesIn(ns, Env(symbols, current))
      decreases ns, 1
    {
      hide Recorded, Captures, WellFormed, Env;
      if ns.Cons? {
        Visit(ns.head);
        VisitAll(ns.tail);
      }
    }

    /** A function, a lambda, a block or a for loop; only a lambda changes what `lambda` is. */
    method VisitScope(n: Node, body: Nodes)
      requires n.Fn? || n.Lambda? || n.Scope?
      requires Valid() && HasScope(symbols, Opened(n), current) && RecordedIn(body, symbols.scopeOf[Opened(n).owner], symbols)
      requires body < n
      modifies `current, `lambda, `errors
      ensures Valid() && current == old(current) && lambda == old(lambda)
      ensures errors == old(errors) + CapturesIn(body, [Opened(n)] + Env(symbols, current))
      decreases n, 0
    {
      hide RecordedIn, CapturesIn, Env, Ancestors, Innermost, DeclaredBy;
      var previousScope, previousLambda := current, lambda;
      EnvOfOpened(symbols, Opened(n), current);
      InnermostOf(Opened(n), Env(symbols, current));
      current := symbols.scopeOf[n.id];
      if n.Lambda? {
        lambda := Some(n.id);
      }
      VisitAll(body);
      current := previousScope;
      lambda := previousLambda;
    }
  }

  lemma InnermostOf(f: Frame, env: seq<Frame>)
    ensures Innermost([f] + env) == if f.kind.LambdaScope? then 0 else 1 + Innermost(env)
  {
    assert ([f] + env)[1..] == env;
  }

  /** The outermost of the ancestors is the global scope, so it is no lambda. */
  lemma LambdaIsInside(t: Tables, k: nat, l: nat)
    requires WellFormed(t) && k < |t.scopes| && l < |Env(t, k)| && Env(t, k)[l].kind.LambdaScope?
    ensures l < |Ancestors(t, k)| - 1
  {
    Upwards(t, k, l);
  }

  lemma Exactly(root: Node, errors: seq<Capture>)
    requires errors == Captures(root, [GlobalFrame(root)])
    ensures forall lambda, name, id :: Capture(lambda, name, id) in errors <==>
              exists chain :: Leads(chain, Ident(id, name), Cons(root, Nil)) && Escapes(chain, lambda, name)
  {
    hide *;
    forall lambda, name, id
      ensures Capture(lambda, name, id) in errors <==>
              exists chain :: Leads(chain, Ident(id, name), Cons(root, Nil)) && Escapes(chain, lambda, name)
    {
      CapturesExactly(root, lambda, name, id);
    }
  }

  /** Both passes over one declaration, as type_checker_c runs them: the captures found are exactly the uses of names
      for which the nearest scope around them that declares the name lies outside the innermost lambda. */
  method Check(root: Node) returns (errors: seq<Capture>)
    requires Distinct(root)
    ensures errors == Captures(root, [GlobalFrame(root)])
    ensures forall lambda, name, id :: Capture(lambda, name, id) in errors <==>
              exists chain :: Leads(chain, Ident(id, name), Cons(root, Nil)) && Escapes(chain, lambda, name)
  {
    hide Captures, Recorded;
    var collector := new Collector();
    collector.Visit(root);
    var validator := new Validator(collector.result);
    assert {} + Declared(root) == Declared(root);
    assert Env(collector.result, 0) == [GlobalFrame(root)];
    validator.Visit(root);
    errors := validator.errors;
    Exactly(root, errors);
  }
}
