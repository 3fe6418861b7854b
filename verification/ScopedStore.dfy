/** What the scoped store holds, as a stack of maps; the innermost context is the last one. */
module ScopedStore {
  import opened Options

  /** A key may be bound to a null pointer: a null that was stored, or one that was moved away. */
  type Scope<V> = map<string, Option<V>>

  /** One context: its bindings, and the keys to be hoisted when it is popped. */
  datatype Layer<V> = Layer(scope: Scope<V>, pending: seq<string>)

  // ----- popping -----

  /** Moving the pending keys one after the other; what has been moved is null from then on. */
  function Hoist<V>(pending: seq<string>, child: Scope<V>, parent: Scope<V>): Scope<V> {
    if pending == [] then parent
    else
      var k := pending[0];
      if k in child then Hoist(pending[1..], child[k := None], parent[k := child[k]])
      else Hoist(pending[1..], child, parent)
  }

  predicate Repeated(pending: seq<string>, k: string) {
    exists i, j :: 0 <= i < j < |pending| && pending[i] == k && pending[j] == k
  }

  /** The parent overridden by exactly the pending keys that are present, of which a repeated one is lost. */
  function Overridden<V>(pending: seq<string>, child: Scope<V>, parent: Scope<V>): Scope<V> {
    map k | k in parent.Keys + child.Keys && (k in parent || k in pending) ::
      if k in pending && k in child then (if Repeated(pending, k) then None else child[k]) else parent[k]
  }

  lemma {:induction false} HoistIsOverriding<V>(pending: seq<string>, child: Scope<V>, parent: Scope<V>)
    ensures Hoist(pending, child, parent) == Overridden(pending, child, parent)
    decreases |pending|
  {
    if pending != [] {
      var k, rest := pending[0], pending[1..];
      forall x ensures Repeated(pending, x) <==> Repeated(rest, x) || (x == k && x in rest) {
        RepeatedStep(pending, x);
      }
      if k in child {
        HoistIsOverriding(rest, child[k := None], parent[k := child[k]]);
      } else {
        HoistIsOverriding(rest, child, parent);
      }
    }
  }

  lemma RepeatedStep(pending: seq<string>, k: string)
    requires pending != []
    ensures Repeated(pending, k) <==> Repeated(pending[1..], k) || (k == pending[0] && k in pending[1..])
  {
    var rest := pending[1..];
    if Repeated(rest, k) {
      var i, j :| 0 <= i < j < |rest| && rest[i] == k && rest[j] == k;
      assert pending[i + 1] == k && pending[j + 1] == k;
    }
    if k == pending[0] && k in rest {
      var j :| 0 <= j < |rest| && rest[j] == k;
      assert pending[0] == k && pending[j + 1] == k;
    }
    if Repeated(pending, k) {
      var i, j :| 0 <= i < j < |pending| && pending[i] == k && pending[j] == k;
      assert rest[j - 1] == k;
      assert i > 0 ==> rest[i - 1] == k;
    }
  }

  /** Popping keeps every pending value if and only if no key with a value is pending twice. */
  lemma HoistKeepsValuesExactly<V>(pending: seq<string>, child: Scope<V>, parent: Scope<V>)
    ensures var r := Hoist(pending, child, parent);
            (forall k :: k in pending && k in child ==> k in r && r[k] == child[k])
            <==> (forall k :: k in child && child[k].Some? ==> !Repeated(pending, k))
  {
    HoistIsOverriding(pending, child, parent);
    forall k | k in child && Repeated(pending, k) ensures k in pending {
      var i, j :| 0 <= i < j < |pending| && pending[i] == k && pending[j] == k;
    }
  }

  /** Hoisting a key twice loses its value. */
  lemma HoistingTwiceLosesTheValue()
    ensures var k := "x";
            var child: Scope<int> := map[k := Some(1)];
            Hoist([k, k], child, map[]) == map[k := None]
  {
    var k := "x";
    var child: Scope<int> := map[k := Some(1)];
    assert [k, k][1..] == [k];
    assert Hoist([k], child[k := None], map[k := Some(1)]) == map[k := None];
  }

  // ----- the operations -----

  type Stack<V> = seq<Layer<V>>

  function Top<V>(s: Stack<V>): Layer<V>
    requires s != []
  {
    s[|s| - 1]
  }

  function WithTop<V>(s: Stack<V>, l: Layer<V>): Stack<V>
    requires s != []
  {
    s[..|s| - 1] + [l]
  }

  /** The root context is never popped. */
  function Popped<V>(s: Stack<V>): (r: Stack<V>)
    requires s != []
    ensures r != []
  {
    if |s| == 1 then s
    else
      var child, outer := Top(s), s[..|s| - 1];
      WithTop(outer, Top(outer).(scope := Overridden(child.pending, child.scope, Top(outer).scope)))
  }

  /** A lookup from the innermost context outwards. */
  function Lookup<V>(s: Stack<V>, key: string): Option<V> {
    if s == [] then None
    else if key in Top(s).scope then Top(s).scope[key]
    else Lookup(s[..|s| - 1], key)
  }

  /** It finds the binding of the innermost context that has one, even when that binding is null. */
  lemma {:induction false} LookupIsInnermost<V>(s: Stack<V>, key: string, i: nat)
    requires i < |s| && key in s[i].scope && forall j :: i < j < |s| ==> key !in s[j].scope
    ensures Lookup(s, key) == s[i].scope[key]
    decreases |s|
  {
    if i < |s| - 1 {
      LookupIsInnermost(s[..|s| - 1], key, i);
    }
  }

  lemma {:induction false} LookupFindsNothing<V>(s: Stack<V>, key: string)
    requires forall i :: 0 <= i < |s| ==> key !in s[i].scope
    ensures Lookup(s, key) == None
    decreases |s|
  {
    if s != [] {
      LookupFindsNothing(s[..|s| - 1], key);
    }
  }

  datatype Op<V> =
    | Push | Pop | Set(key: string, value: Option<V>) | Drop(key: string) | DeferHoist(key: string)

  /** One operation; None where the source throws because there is no room for a context. */
  function Apply<V>(s: Stack<V>, op: Op<V>, capacity: nat): (r: Option<Stack<V>>)
    requires s != []
    ensures r.Some? ==> r.value != []
  {
    match op
    case Push => if |s| >= capacity then None else Some(s + [Layer(map[], [])])
    case Pop => Some(Popped(s))
    case Set(k, v) => Some(WithTop(s, Top(s).(scope := Top(s).scope[k := v])))
    case Drop(k) => Some(WithTop(s, Top(s).(scope := Top(s).scope - {k})))
    case DeferHoist(k) => Some(WithTop(s, Top(s).(pending := Top(s).pending + [k])))
  }

  function Run<V>(s: Stack<V>, ops: seq<Op<V>>, capacity: nat): (r: Option<Stack<V>>)
    requires s != []
    ensures r.Some? ==> r.value != []
    decreases |ops|
  {
    if ops == [] then Some(s)
    else
      var t := Apply(s, ops[0], capacity);
      if t.None? then None else Run(t.value, ops[1..], capacity)
  }

  /** A run that starts at some depth above an outer context, never touches that context itself, hoists nothing
      into it, and ends in it. */
  predicate Balanced<V>(ops: seq<Op<V>>, depth: nat)
    decreases |ops|
  {
    if ops == [] then depth == 0
    else match ops[0]
    case Push => Balanced(ops[1..], depth + 1)
    case Pop => depth > 0 && Balanced(ops[1..], depth - 1)
    case DeferHoist(_) => depth > 1 && Balanced(ops[1..], depth)
    case _ => depth > 0 && Balanced(ops[1..], depth)
  }

  /** No key is pending in the context just above the outer ones. */
  predicate NothingLeaves<V>(s: Stack<V>, n: nat) {
    n < |s| ==> s[n].pending == []
  }

  lemma PopAbove<V>(s: Stack<V>, n: nat)
    requires 0 < n < |s| && NothingLeaves(s, n)
    ensures Popped(s)[..n] == s[..n] && |Popped(s)| == |s| - 1 && NothingLeaves(Popped(s), n)
  {
    var child, outer := Top(s), s[..|s| - 1];
    if |s| == n + 1 {
      assert Overridden(child.pending, child.scope, Top(outer).scope) == Top(outer).scope;
      assert Popped(s) == outer == s[..n];
    } else {
      assert Popped(s)[..n] == outer[..n] == s[..n];
    }
  }

  /** Whatever a balanced run does above them, the outer contexts are as they were, keys pending in them
      included, and it ends where it began. */
  lemma {:induction false} BalancedRunKeepsOuter<V>(s: Stack<V>, n: nat, ops: seq<Op<V>>, capacity: nat)
    requires 0 < n <= |s| && Balanced(ops, |s| - n) && NothingLeaves(s, n) && Run(s, ops, capacity).Some?
    ensures Run(s, ops, capacity).value == s[..n]
    decreases |ops|
  {
    hide Popped;
    if ops == [] {
      assert s[..n] == s;
    } else {
      var t := Apply(s, ops[0], capacity).value;
      if ops[0].Pop? {
        PopAbove(s, n);
      } else {
        assert t[..n] == s[..n];
      }
      BalancedRunKeepsOuter(t, n, ops[1..], capacity);
    }
  }

  /** A balanced run that fits leaves everything as it was. */
  lemma BalancedRunIsNeutral<V>(s: Stack<V>, ops: seq<Op<V>>, capacity: nat)
    requires s != [] && Balanced(ops, 0) && Run(s, ops, capacity).Some?
    ensures Run(s, ops, capacity).value == s
  {
    BalancedRunKeepsOuter(s, |s|, ops, capacity);
    assert s[..|s|] == s;
  }

  // ----- what the operations mean for lookups -----

  /** A lookup asks the innermost context first and then the ones around it. */
  lemma LookupUnfolds<V>(outer: Stack<V>, top: Layer<V>, x: string)
    ensures Lookup(outer + [top], x) == if x in top.scope then top.scope[x] else Lookup(outer, x)
  {
    assert (outer + [top])[..|outer|] == outer;
  }

  /** After a value has been set it is found, with and without the outer contexts; every other key is found as before. */
  lemma SetIsFound<V>(s: Stack<V>, k: string, v: Option<V>, x: string, capacity: nat)
    requires s != []
    ensures var t := Apply(s, Op.Set(k, v), capacity);
            && t.Some? && |t.value| == |s|
            && k in Top(t.value).scope && Lookup(t.value, k) == Lookup([Top(t.value)], k) == v
            && (x != k ==>
                  && Lookup(t.value, x) == Lookup(s, x) && Lookup([Top(t.value)], x) == Lookup([Top(s)], x)
                  && (x in Top(t.value).scope <==> x in Top(s).scope))
  {
    var t := Apply(s, Op.Set(k, v), capacity).value;
    var outer := s[..|s| - 1];
    assert s == outer + [Top(s)] && t == outer + [Top(t)];
    LookupUnfolds(outer, Top(t), k);
    LookupUnfolds(outer, Top(t), x);
    LookupUnfolds(outer, Top(s), x);
    LookupAlone(Top(t), k);
    LookupAlone(Top(t), x);
    LookupAlone(Top(s), x);
  }

  lemma LookupAlone<V>(l: Layer<V>, x: string)
    ensures Lookup([l], x) == if x in l.scope then l.scope[x] else None
  {
    var none: Stack<V> := [];
    assert none + [l] == [l];
    LookupUnfolds(none, l, x);
  }

  /** After a key has been dropped it is not set, and a lookup is that of the outer contexts. */
  lemma DroppedIsGone<V>(s: Stack<V>, k: string, x: string, capacity: nat)
    requires s != []
    ensures var t := Apply(s, Drop(k), capacity);
            && t.Some? && |t.value| == |s|
            && k !in Top(t.value).scope && Lookup([Top(t.value)], k) == None
            && Lookup(t.value, k) == Lookup(s[..|s| - 1], k)
            && (x != k ==>
                  && Lookup(t.value, x) == Lookup(s, x) && Lookup([Top(t.value)], x) == Lookup([Top(s)], x)
                  && (x in Top(t.value).scope <==> x in Top(s).scope))
  {
    var t := Apply(s, Drop(k), capacity).value;
    var outer := s[..|s| - 1];
    assert s == outer + [Top(s)] && t == outer + [Top(t)];
    LookupUnfolds(outer, Top(t), k);
    LookupUnfolds(outer, Top(t), x);
    LookupUnfolds(outer, Top(s), x);
    LookupAlone(Top(t), k);
    LookupAlone(Top(t), x);
    LookupAlone(Top(s), x);
  }

  /** A context can be pushed exactly while fewer are live than there are slots. It holds nothing, and behind it every key
      is found as before. */
  lemma PushedIsEmpty<V>(s: Stack<V>, x: string, capacity: nat)
    requires s != []
    ensures var t := Apply(s, Push, capacity);
            && (t.Some? <==> |s| < capacity)
            && (t.Some? ==>
                  && |t.value| == |s| + 1 && t.value[..|s|] == s
                  && x !in Top(t.value).scope && Top(t.value).pending == [] && Lookup(t.value, x) == Lookup(s, x))
  {
    var t := Apply(s, Push, capacity);
    if t.Some? {
      LookupUnfolds(s, Top(t.value), x);
    }
  }

  /** What a pop does to one key: a key that is pending and set arrives in the outer context, as null if it is pending
      twice; any other key is as it was there. The root context stays. */
  lemma PoppedKey<V>(s: Stack<V>, x: string)
    requires s != []
    ensures |s| == 1 ==> Popped(s) == s
    ensures |s| > 1 ==>
              var (child, outer, t) := (Top(s), s[..|s| - 1], Popped(s));
              && |t| == |s| - 1 && t[..|t| - 1] == outer[..|t| - 1] && Top(t).pending == Top(outer).pending
              && if x in child.pending && x in child.scope
                 then x in Top(t).scope && Lookup(t, x) == if Repeated(child.pending, x) then None else child.scope[x]
                 else (x in Top(t).scope <==> x in Top(outer).scope) && Lookup(t, x) == Lookup(outer, x)
  {
    if |s| > 1 {
      var child, outer, t := Top(s), s[..|s| - 1], Popped(s);
      var rest := outer[..|outer| - 1];
      assert outer == rest + [Top(outer)] && t == rest + [Top(t)];
      LookupUnfolds(rest, Top(outer), x);
      LookupUnfolds(rest, Top(t), x);
    }
  }

  /** Deferring the hoist of a key changes no lookup. At the next pop it makes exactly that key arrive, if it is set and
      was not pending before, and it loses the value of a key that was; every other key arrives or not as it would have. */
  lemma DeferredHoistArrives<V>(s: Stack<V>, k: string, x: string, capacity: nat)
    requires |s| > 1
    ensures var t := Apply(s, DeferHoist(k), capacity);
            && t.Some? && |t.value| == |s|
            && Lookup(t.value, x) == Lookup(s, x) && Lookup([Top(t.value)], x) == Lookup([Top(s)], x)
            && (x in Top(t.value).scope <==> x in Top(s).scope)
            && (k in Top(s).scope ==>
                  && k in Top(Popped(t.value)).scope
                  && Lookup(Popped(t.value), k) == if k in Top(s).pending then None else Top(s).scope[k])
            && (x != k || k !in Top(s).scope ==>
                  && (x in Top(Popped(t.value)).scope <==> x in Top(Popped(s)).scope)
                  && Lookup(Popped(t.value), x) == Lookup(Popped(s), x))
  {
    hide Lookup, Popped;
    var t := Apply(s, DeferHoist(k), capacity).value;
    var outer := s[..|s| - 1];
    assert s == outer + [Top(s)] && t == outer + [Top(t)] && t[..|t| - 1] == outer;
    LookupUnfolds(outer, Top(t), x);
    LookupUnfolds(outer, Top(s), x);
    LookupAlone(Top(t), x);
    LookupAlone(Top(s), x);
    PoppedKey(s, x);
    PoppedKey(t, x);
    PoppedKey(t, k);
    OneMorePending(Top(s).pending, k, x);
    OneMorePending(Top(s).pending, k, k);
  }

  lemma OneMorePending(pending: seq<string>, k: string, x: string)
    ensures x in pending + [k] <==> x in pending || x == k
    ensures Repeated(pending + [k], x) <==> Repeated(pending, x) || (x == k && k in pending)
  {
    var p := pending + [k];
    assert forall i :: 0 <= i < |pending| ==> p[i] == pending[i];
    assert p[|pending|] == k;
    if Repeated(pending, x) {
      var i, j :| 0 <= i < j < |pending| && pending[i] == x && pending[j] == x;
      assert p[i] == x && p[j] == x;
    }
    if x == k && k in pending {
      var i :| 0 <= i < |pending| && pending[i] == k;
      assert p[i] == x && p[|pending|] == x;
    }
    if Repeated(p, x) {
      var i, j :| 0 <= i < j < |p| && p[i] == x && p[j] == x;
      assert pending[i] == x;
      assert j < |pending| ==> pending[j] == x;
    }
  }
}
