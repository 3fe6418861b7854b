/** Laws of places and values, as C and the language have them. */
module ExprMeaning {
  import opened Options
  import opened ExprSyntax
  import opened ExprCompound

  /** `*&x` is the place of `x`. */
  lemma PlaceOfAddress(m: Machine, x: Expr, s: Store)
    ensures Locate(m, Unary(Deref, Unary(AddressOf, x)), s) == Locate(m, x, s)
  {}

  lemma NameIsRead(m: Machine, x: string, s: Store)
    ensures Eval(m, Name(x), s) == if Var(x) in s then Some((s[Var(x)], s)) else None
  {
    assert Locate(m, Name(x), s) == Some((Var(x), s));
  }

  lemma NameIsAssigned(m: Machine, x: string, v: Expr, s: Store)
    ensures var r, w := Eval(m, Assign(Name(x), v), s), Eval(m, v, s);
            r == if w.None? then None else Some((w.value.0, w.value.1[Var(x) := w.value.0]))
  {
    var w := Eval(m, v, s);
    assert Locate(m, Name(x), s) == Some((Var(x), s));
    if w.Some? {
      assert Locate(m, Name(x), w.value.1) == Some((Var(x), w.value.1));
    }
  }

  /** What has been assigned to a variable is read from it, and every other variable is as before. */
  lemma AssignedIsRead(m: Machine, x: string, v: Expr, y: string, s: Store)
    requires Eval(m, v, s).Some?
    ensures var (value, before) := Eval(m, v, s).value;
            var r := Eval(m, Assign(Name(x), v), s);
            && r.Some? && r.value.0 == value
            && Eval(m, Name(x), r.value.1) == Some((value, r.value.1))
            && var was, now := Eval(m, Name(y), before), Eval(m, Name(y), r.value.1);
               y == x || (if was.Some? then now == Some((was.value.0, r.value.1)) else now.None?)
  {
    hide Eval, Locate;
    NameIsAssigned(m, x, v, s);
    var (value, before) := Eval(m, v, s).value;
    var after := before[Var(x) := value];
    NameIsRead(m, x, after);
    NameIsRead(m, y, before);
    NameIsRead(m, y, after);
  }

  /** Through a pointer to `x` the value goes to `x`. */
  lemma AssignedThroughPointer(m: Machine, p: string, x: string, v: Expr, s: Store)
    requires Var(p) in s && s[Var(p)] == Ref(Var(x))
    requires WritesNothing(m, v, s)
    ensures Eval(m, Assign(Unary(Deref, Name(p)), v), s) == Eval(m, Assign(Name(x), v), s)
  {
    assert Eval(m, Name(p), s) == Some((Ref(Var(x)), s));
    assert Locate(m, Unary(Deref, Name(p)), s) == Some((Var(x), s));
    assert Locate(m, Name(x), s) == Some((Var(x), s));
  }

  /** The elements of a slice are those that its data field points to. */
  lemma SliceIsItsData(m: Machine, slice: string, i: Expr, s: Store)
    requires !(Var(slice) in s && s[Var(slice)].Ref?)
    requires var data := Fld(Var(slice), "data"); data in s && s[data].Ref?
    ensures Locate(m, Index(Name(slice), i), s) == Locate(m, Index(Member(Name(slice), "data"), i), s)
  {
    var data := Member(Name(slice), "data");
    assert Locate(m, Name(slice), s) == Some((Var(slice), s));
    assert Locate(m, data, s) == Some((Fld(Var(slice), "data"), s));
    assert Base(m, Name(slice), s) == Base(m, data, s);
  }

  /** The first element of a pointer's target is counted from the target. */
  lemma PointerIsIndexed(m: Machine, p: string, i: Expr, x: string, s: Store)
    requires Var(p) in s && s[Var(p)] == Ref(Var(x)) && WritesNothing(m, i, s)
    ensures var k := Eval(m, i, s);
            Locate(m, Index(Name(p), i), s) ==
              if k.Some? && k.value.0.Int? then Some((Elem(Var(x), k.value.0.n), s)) else None
  {
    assert Locate(m, Name(p), s) == Some((Var(p), s));
    assert Base(m, Name(p), s) == Some((Var(x), s));
  }

  /** `a && b` and `a || b` look at `b` only where `a` leaves the answer open. */
  lemma ShortCircuits(m: Machine, a: Expr, b: Expr, s: Store)
    requires Eval(m, a, s).Some?
    ensures var (value, after) := Eval(m, a, s).value;
            var both, either := Eval(m, Binary(And, a, b), s), Eval(m, Binary(Or, a, b), s);
            if m.truth(value) then both == Eval(m, b, after) && either == Some((value, after))
            else both == Some((value, after)) && either == Eval(m, b, after)
  {
    assert Eval(m, Binary(And, a, b), s) == EvalBinary(m, And, a, b, s);
    assert Eval(m, Binary(Or, a, b), s) == EvalBinary(m, Or, a, b, s);
    hide Eval;
  }
}
