/** The scoped store itself: contexts linked by parent pointers, placed in a fixed row of slots. */
module Memory {
  import opened Options
  import opened ScopedStore

  class Context<V(==)> {
    var parent: Context?<V>
    var scope: Scope<V>
    var pending: seq<string>

    constructor ()
      ensures parent == null && scope == map[] && pending == []
    {
      parent, scope, pending := null, map[], [];
    }

    ghost function Contents(): Layer<V>
      reads this
    {
      Layer(scope, pending)
    }
  }

  /** The values of the pending keys move to the parent, one by one. */
  method HoistPending<V(==)>(child: Context<V>, parent: Context<V>)
    requires child != parent
    modifies child`scope, child`pending, parent`scope
    ensures parent.scope == Hoist(old(child.pending), old(child.scope), old(parent.scope))
  {
    while child.pending != []
      invariant Hoist(child.pending, child.scope, parent.scope)
                == Hoist(old(child.pending), old(child.scope), old(parent.scope))
      decreases |child.pending|
    {
      var key := child.pending[0];
      if key in child.scope {
        parent.scope := parent.scope[key := child.scope[key]];
        child.scope := child.scope[key := None];
      }
      child.pending := child.pending[1..];
    }
  }

  method NewSlots<V(==)>(n: nat) returns (cs: seq<Context<V>>)
    ensures |cs| == n && fresh(cs) && forall i, j :: 0 <= i < j < n ==> cs[i] != cs[j]
  {
    cs := [];
    while |cs| < n
      invariant |cs| <= n && fresh(cs)
      invariant forall i, j :: 0 <= i < j < |cs| ==> cs[i] != cs[j]
    {
      var c := new Context<V>();
      cs := cs + [c];
    }
  }

  class Memory<V(==)> {
    const root: Context<V>
    const slots: seq<Context<V>>
    var current: Context<V>
    var count: nat

    /** The live contexts, from the root to the current one: the root and the first `count - 1` slots. */
    ghost function Live(): seq<Context<V>>
      reads this
      requires count >= 1 && count - 1 <= |slots|
    {
      [root] + slots[..count - 1]
    }

    ghost predicate Valid()
      reads this, root, slots
    {
      && 1 <= count && count - 1 <= |slots|
      && root !in slots
      && (forall i, j :: 0 <= i < j < |slots| ==> slots[i] != slots[j])
      && current == Live()[count - 1]
      && root.parent == null
      && (forall i :: 0 < i < count ==> Live()[i].parent == Live()[i - 1])
    }

    ghost function Layers(cs: seq<Context<V>>): (r: Stack<V>)
      reads cs
      ensures |r| == |cs| && forall i :: 0 <= i < |cs| ==> r[i] == cs[i].Contents()
    {
      if cs == [] then [] else Layers(cs[..|cs| - 1]) + [cs[|cs| - 1].Contents()]
    }

    ghost function Stack(): (r: Stack<V>)
      requires Valid()
      reads this, root, slots
      ensures |r| == count
    {
      Layers(Live())
    }

    constructor (contextCount: nat)
      ensures Valid() && |slots| == contextCount && Stack() == [Layer(map[], [])]
      ensures fresh(root) && fresh(slots)
    {
      var r := new Context<V>();
      var cs := NewSlots<V>(contextCount);
      root, slots, current, count := r, cs, r, 1;
      new;
      assert Live() == [root];
    }

    method PushCtx() returns (ok: bool)
      requires Valid()
      modifies this, slots
      ensures Valid() && ok == (old(count) < |slots|)
      ensures Stack() == if ok then old(Stack()) + [Layer(map[], [])] else old(Stack())
      ensures Apply(old(Stack()), Push, |slots|) == if ok then Some(Stack()) else None
    {
      ok := count < |slots|;
      if !ok {
        return;
      }
      ghost var live := Live();
      var c := slots[count - 1];
      c.parent, c.scope, c.pending := current, map[], [];
      current := c;
      count := count + 1;
      assert Live() == live + [c];
    }

    method PopCtx()
      requires Valid()
      modifies this, root, slots
      ensures Valid() && Stack() == Popped(old(Stack()))
    {
      hide Layers, Hoist, Overridden;
      if current == root {
        return;
      }
      ghost var live := Live();
      ghost var before := Stack();
      assert live[count - 1].parent == live[count - 2];
      var child, parent := current, current.parent;
      assert forall i :: 0 <= i < count - 1 ==> live[i] != child;
      assert forall i :: 0 <= i < count - 2 ==> live[i] != parent;
      HoistIsOverriding(child.pending, child.scope, parent.scope);
      HoistPending(child, parent);
      current := parent;
      count := count - 1;
      assert Live() == live[..count];
      OnlyTopChanged(before[..count], Stack());
    }

    lemma Depth()
      requires Valid()
      ensures |Stack()| == count >= 1
    {}

    /** The current context is none of the outer ones. */
    lemma OnlyLast(live: seq<Context<V>>)
      requires Valid() && live == Live()
      ensures forall i :: 0 <= i < count - 1 ==> live[i] != current
    {}

    method Set(key: string, item: Option<V>)
      requires Valid()
      modifies root, slots
      ensures Valid() && Stack()[..count - 1] == old(Stack())[..count - 1] && count == old(count)
      ensures Top(Stack()) == old(Layer(Top(Stack()).scope[key := item], Top(Stack()).pending))
      ensures Apply(old(Stack()), Op.Set(key, item), |slots|) == Some(Stack())
    {
      hide Layers;
      ghost var before, live := Stack(), Live();
      OnlyLast(live);
      current.scope := current.scope[key := item];
      OnlyTopChanged(before, Stack());
    }

    method IsSet(key: string) returns (b: bool)
      requires Valid()
      ensures b == (key in Top(Stack()).scope)
    {
      assert Top(Stack()) == Live()[count - 1].Contents();
      b := key in current.scope;
    }

    /** None is the null pointer, for a key that is not found and for a null binding alike. */
    method Get(key: string, useParentCtx: bool) returns (r: Option<V>)
      requires Valid()
      ensures r == Lookup(if useParentCtx then Stack() else [Top(Stack())], key)
    {
      var ctx: Context?<V> := current;
      ghost var i := count;
      assert Stack()[..count] == Stack();
      while ctx != null
        invariant 0 <= i <= count && ctx == if i == 0 then null else Live()[i - 1]
        invariant Lookup(Stack()[..i], key) == Lookup(Stack(), key)
        invariant !useParentCtx ==> i == count
        decreases i
      {
        assert Stack()[..i][..i - 1] == Stack()[..i - 1] && Top(Stack()[..i]) == ctx.Contents();
        if key in ctx.scope {
          return ctx.scope[key];
        }
        if !useParentCtx {
          break;
        }
        ctx := ctx.parent;
        i := i - 1;
      }
      r := None;
    }

    method DropKey(key: string)
      requires Valid()
      modifies root, slots
      ensures Valid() && Stack()[..count - 1] == old(Stack())[..count - 1] && count == old(count)
      ensures Top(Stack()) == old(Layer(Top(Stack()).scope - {key}, Top(Stack()).pending))
      ensures Apply(old(Stack()), Drop(key), |slots|) == Some(Stack())
    {
      hide Layers;
      ghost var before, live := Stack(), Live();
      OnlyLast(live);
      current.scope := current.scope - {key};
      OnlyTopChanged(before, Stack());
    }

    method DeferHoistKey(key: string)
      requires Valid()
      modifies root, slots
      ensures Valid() && Stack()[..count - 1] == old(Stack())[..count - 1] && count == old(count)
      ensures Top(Stack()) == old(Layer(Top(Stack()).scope, Top(Stack()).pending + [key]))
      ensures Apply(old(Stack()), DeferHoist(key), |slots|) == Some(Stack())
    {
      hide Layers;
      ghost var before, live := Stack(), Live();
      OnlyLast(live);
      current.pending := current.pending + [key];
      OnlyTopChanged(before, Stack());
    }
  }

  lemma OnlyTopChanged<V>(s: Stack<V>, t: Stack<V>)
    requires s != [] && |s| == |t| && forall i :: 0 <= i < |s| - 1 ==> t[i] == s[i]
    ensures t == WithTop(s, Top(t))
  {}

  // ----- the store as a caller sees it -----

  /** What has been set is found, and every other key is found as before. */
  method SetThenGet<V(==)>(m: Memory<V>, key: string, item: Option<V>, other: string, useParentCtx: bool)
    returns (before: Option<V>, wasSet: bool, got: Option<V>, isSet: bool, after: Option<V>, otherSet: bool)
    requires m.Valid()
    modifies m.root, m.slots
    ensures m.Valid() && got == item && isSet
    ensures other != key ==> after == before && otherSet == wasSet
  {
    hide Apply, Lookup, Memory.Valid, Memory.Stack, Memory.Live, Memory.Layers;
    before := m.Get(other, useParentCtx);
    wasSet := m.IsSet(other);
    ghost var s := m.Stack();
    m.Set(key, item);
    SetIsFound(s, key, item, other, |m.slots|);
    got := m.Get(key, useParentCtx);
    isSet := m.IsSet(key);
    after := m.Get(other, useParentCtx);
    otherSet := m.IsSet(other);
  }

  /** In a context that has just been pushed nothing is set; what is set there hides the outer value until the key is
      dropped or the context is popped, and then the outer value is found again. */
  method ShadowAndRestore<V(==)>(m: Memory<V>, key: string, item: Option<V>, drop: bool)
    returns (ok: bool, before: Option<V>, isSet: bool, inside: Option<V>, after: Option<V>)
    requires m.Valid()
    modifies m, m.root, m.slots
    ensures m.Valid() && ok == (old(m.count) < |m.slots|)
    ensures ok ==> !isSet && inside == item && after == before
  {
    hide Apply, Lookup, Popped, Memory.Valid, Memory.Stack, Memory.Live, Memory.Layers;
    ghost var s := m.Stack();
    m.Depth();
    before := m.Get(key, true);
    isSet, inside, after := false, None, None;
    ok := m.PushCtx();
    if !ok {
      return;
    }
    PushedIsEmpty(s, key, |m.slots|);
    isSet := m.IsSet(key);
    ghost var t := m.Stack();
    m.Set(key, item);
    SetIsFound(t, key, item, key, |m.slots|);
    inside := m.Get(key, true);
    ghost var u := m.Stack();
    assert u[..|u| - 1] == s;
    if drop {
      m.DropKey(key);
      DroppedIsGone(u, key, key, |m.slots|);
    } else {
      m.PopCtx();
      PoppedKey(u, key);
    }
    after := m.Get(key, true);
  }

  /** A key that is deferred arrives outside when its context is popped. */
  method HoistOut<V(==)>(m: Memory<V>, key: string, item: Option<V>)
    returns (ok: bool, arrived: Option<V>, isSet: bool)
    requires m.Valid()
    modifies m, m.root, m.slots
    ensures m.Valid() && ok == (old(m.count) < |m.slots|)
    ensures ok ==> arrived == item && isSet && m.count == old(m.count)
  {
    hide Apply, Lookup, Popped, Memory.Valid, Memory.Stack, Memory.Live, Memory.Layers;
    arrived, isSet := None, false;
    m.Depth();
    ok := m.PushCtx();
    if !ok {
      return;
    }
    m.Set(key, item);
    ghost var u := m.Stack();
    m.DeferHoistKey(key);
    DeferredHoistArrives(u, key, key, |m.slots|);
    PoppedKey(m.Stack(), key);
    ghost var t := m.Stack();
    m.PopCtx();
    LookupAlone(Top(m.Stack()), key);
    arrived := m.Get(key, true);
    isSet := m.IsSet(key);
  }
}
