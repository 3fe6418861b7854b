/** What a compound assignment does once it has been rewritten to a plain one. */
module ExprCompound {
  import opened Options
  import opened ExprSyntax
  import opened ExprGrammar
  import opened ExprSpelling

  datatype Loc = Var(name: string) | Elem(base: Loc, i: int) | Fld(base: Loc, field: string)

  datatype Value = Int(n: int) | Ref(to: Loc)

  type Store = map<Loc, Value>

  /** What the meaning of expressions leaves open: the operators, everything that is neither a place nor an
      operator (literals, calls, casts, lambdas: these may read and write at will), and the two evaluation
      orders that C leaves open. */
  datatype Machine = Machine(
    other: (Expr, Store) -> Option<(Value, Store)>,
    unary: (UnaryOp, Value) -> Option<Value>,
    binary: (BinaryOp, Value, Value) -> Option<Value>,
    truth: Value -> bool,
    rightFirst: bool,
    valueFirst: bool)
  {
    /** Literals write nothing. */
    ghost predicate LiteralsAreQuiet() {
      forall e: Expr, s: Store :: (e.Number? || e.Bool? || e.Nil?) && other(e, s).Some? ==> other(e, s).value.1 == s
    }
  }

  predicate IsPlace(e: Expr) {
    e.Name? || e.Index? || e.Member? || (e.Unary? && e.uop == Deref)
  }

  /** Where the elements of an indexed place are: those of an array in the array itself, those of a pointer where it
      points to, those of a slice where its data field points to. */
  function Indexed(l: Loc, s: Store): Loc {
    var data := Fld(l, "data");
    if l in s && s[l].Ref? then s[l].to
    else if data in s && s[data].Ref? then s[data].to
    else l
  }

  /** What is indexed may be a place or any expression that gives a pointer. */
  function Base(m: Machine, obj: Expr, s: Store): Option<(Loc, Store)>
    decreases obj, 2
  {
    if IsPlace(obj) then
      var l := Locate(m, obj, s);
      if l.None? then None else Some((Indexed(l.value.0, l.value.1), l.value.1))
    else
      var v := Eval(m, obj, s);
      if v.None? || !v.value.0.Ref? then None else Some((v.value.0.to, v.value.1))
  }

  /** The place an expression denotes, with the effects of finding it; None for a fault. */
  function Locate(m: Machine, e: Expr, s: Store): Option<(Loc, Store)>
    decreases e, 0
  {
    match e
    case Name(id) => Some((Var(id), s))
    case Index(obj, idx) =>
      var o := Base(m, obj, s);
      if o.None? then None else
      var i := Eval(m, idx, o.value.1);
      if i.None? || !i.value.0.Int? then None else Some((Elem(o.value.0, i.value.0.n), i.value.1))
    case Member(obj, field) =>
      var o := Locate(m, obj, s);
      if o.None? then None else Some((Fld(o.value.0, field), o.value.1))
    case Unary(op, x) =>
      if op != Deref then None else
      var v := Eval(m, x, s);
      if v.None? || !v.value.0.Ref? then None else Some((v.value.0.to, v.value.1))
    case _ => None
  }

  function Eval(m: Machine, e: Expr, s: Store): Option<(Value, Store)>
    decreases e, 1
  {
    if IsPlace(e) then
      var l := Locate(m, e, s);
      if l.None? || l.value.0 !in l.value.1 then None else Some((l.value.1[l.value.0], l.value.1))
    else
    match e
    case Unary(op, x) =>
      if op == AddressOf then
        var l := Locate(m, x, s);
        if l.None? then None else Some((Ref(l.value.0), l.value.1))
      else
        var v := Eval(m, x, s);
        if v.None? then None else WithStore(m.unary(op, v.value.0), v.value.1)
    case Binary(op, l, r) => EvalBinary(m, op, l, r, s)
    case Assign(t, v) =>
      if m.valueFirst then
        var w := Eval(m, v, s);
        if w.None? then None else
        var l := Locate(m, t, w.value.1);
        if l.None? then None else Some((w.value.0, l.value.1[l.value.0 := w.value.0]))
      else
        var l := Locate(m, t, s);
        if l.None? then None else
        var w := Eval(m, v, l.value.1);
        if w.None? then None else Some((w.value.0, w.value.1[l.value.0 := w.value.0]))
    case _ => m.other(e, s)
  }

  function WithStore(v: Option<Value>, s: Store): Option<(Value, Store)> {
    if v.None? then None else Some((v.value, s))
  }

  function EvalBinary(m: Machine, op: BinaryOp, l: Expr, r: Expr, s: Store): Option<(Value, Store)>
    decreases Binary(op, l, r), 0
  {
    if op == And || op == Or then
      var a := Eval(m, l, s);
      if a.None? then None
      else if m.truth(a.value.0) == (op == Or) then a
      else Eval(m, r, a.value.1)
    else if m.rightFirst then
      var b := Eval(m, r, s);
      if b.None? then None else
      var a := Eval(m, l, b.value.1);
      if a.None? then None else WithStore(m.binary(op, a.value.0, b.value.0), a.value.1)
    else
      var a := Eval(m, l, s);
      if a.None? then None else
      var b := Eval(m, r, a.value.1);
      if b.None? then None else WithStore(m.binary(op, a.value.0, b.value.0), b.value.1)
  }

  /** Evaluation that changes nothing in the store. */
  predicate WritesNothing(m: Machine, e: Expr, s: Store) {
    var v := Eval(m, e, s);
    v.Some? ==> v.value.1 == s
  }

  /** What `t op= v` is meant to do: find the place once, combine what it holds with `v`, store there. */
  function Once(m: Machine, t: Expr, op: BinaryOp, v: Expr, s: Store): Option<(Value, Store)> {
    var l := Locate(m, t, s);
    if l.None? || l.value.0 !in l.value.1 then None else
    var w := Eval(m, v, l.value.1);
    if w.None? then None else
    var x := m.binary(op, l.value.1[l.value.0], w.value.0);
    if x.None? then None else Some((x.value, w.value.1[l.value.0 := x.value]))
  }

  lemma IndexIsQuiet(m: Machine, obj: Expr, idx: Expr, s: Store)
    requires WritesNothing(m, obj, s) && WritesNothing(m, idx, s)
    requires Locate(m, obj, s).Some? ==> Locate(m, obj, s).value.1 == s
    ensures WritesNothing(m, Index(obj, idx), s)
    ensures Locate(m, Index(obj, idx), s).Some? ==> Locate(m, Index(obj, idx), s).value.1 == s
  {
    hide Indexed;
    assert Base(m, obj, s).Some? ==> Base(m, obj, s).value.1 == s;
    var l := Locate(m, Index(obj, idx), s);
    assert Eval(m, Index(obj, idx), s)
        == if l.None? || l.value.0 !in l.value.1 then None else Some((l.value.1[l.value.0], l.value.1));
  }

  /** A target that can be copied writes nothing, neither when it is located nor when it is read. */
  lemma {:induction false} ClonableIsQuiet(m: Machine, e: Expr, s: Store)
    requires Clonable(e) && m.LiteralsAreQuiet()
    ensures WritesNothing(m, e, s)
    ensures Locate(m, e, s).Some? ==> Locate(m, e, s).value.1 == s
  {
    match e
    case Index(obj, idx) =>
      ClonableIsQuiet(m, obj, s);
      ClonableIsQuiet(m, idx, s);
      IndexIsQuiet(m, obj, idx, s);
    case Member(obj, _) => ClonableIsQuiet(m, obj, s);
    case Unary(_, x) => ClonableIsQuiet(m, x, s);
    case Binary(_, l, r) => ClonableIsQuiet(m, l, s); ClonableIsQuiet(m, r, s);
    case _ =>
  }

  /** Of two operands that write nothing the order does not matter. */
  lemma QuietOperands(m: Machine, op: BinaryOp, l: Expr, r: Expr, s: Store)
    requires WritesNothing(m, l, s) && WritesNothing(m, r, s) && op != And && op != Or
    ensures var a, b := Eval(m, l, s), Eval(m, r, s);
            EvalBinary(m, op, l, r, s) ==
              if a.None? || b.None? then None else WithStore(m.binary(op, a.value.0, b.value.0), s)
  {
    hide Eval;
  }

  /** A target that can be copied but is no place makes the assignment fault, and so it does when the
      assignment is done at once. */
  lemma DesugaredIsOnce(m: Machine, t: Expr, op: BinaryOp, v: Expr, s: Store)
    requires Clonable(t) && m.LiteralsAreQuiet() && WritesNothing(m, v, s) && op != And && op != Or
    ensures Eval(m, Assign(t, Binary(op, t, v)), s) == Once(m, t, op, v, s)
  {
    ClonableIsQuiet(m, t, s);
    QuietOperands(m, op, t, v, s);
    hide Clonable, EvalBinary;
    assert Eval(m, Binary(op, t, v), s) == EvalBinary(m, op, t, v, s);
    assert IsPlace(t) || Locate(m, t, s).None?;
    if IsPlace(t) {
      assert Eval(m, t, s).None? || Eval(m, t, s) == Some((s[Locate(m, t, s).value.0], s));
    }
  }

  /** A compound assignment is written as an arithmetic operator followed by `=`. The parser accepts it exactly when the
      target can be copied, and then the tree it builds combines with that operator and does what the compound assignment
      is meant to do. */
  lemma CompoundIsFaithful(m: Machine, t: Expr, sym: Symbol, op: BinaryOp, v: Expr, rest: seq<Token>, s: Store)
    requires Sign(op) in {"+", "-", "*", "/", "%"} && Spell(sym) == Sign(op) + "="
    requires m.LiteralsAreQuiet() && WritesNothing(m, v, s)
    ensures var r := Assignment(t, Sym(sym), Ok(v, rest));
            && (r.Ok? <==> Clonable(t))
            && r.rest == rest
            && (r.Ok? ==> r.value == Assign(t, Binary(op, t, v)) && Eval(m, r.value, s) == Once(m, t, op, v, s))
  {
    hide Sign, Spell, Eval, Once, Clonable, Clone;
    CompoundTokens(sym, op);
    NotLogical(op);
    CloneIsExact(t);
    if Clonable(t) {
      DesugaredIsOnce(m, t, op, v, s);
    }
  }

  lemma NotLogical(op: BinaryOp)
    requires Sign(op) in {"+", "-", "*", "/", "%"}
    ensures op != And && op != Or
  {}

  // ----- right-hand sides that write -----

  /** What a place holds. */
  function Held(l: Option<(Loc, Store)>): Option<Value> {
    if l.None? || l.value.0 !in l.value.1 then None else Some(l.value.1[l.value.0])
  }

  /** `old` and `w` are combined and the result is stored at the place; None if something is missing. */
  function Stored(m: Machine, op: BinaryOp, held: Option<Value>, w: Value, to: Option<(Loc, Store)>, s: Store)
    : Option<(Value, Store)>
  {
    if held.None? || to.None? then None else
    var x := m.binary(op, held.value, w);
    if x.None? then None else Some((x.value, s[to.value.0 := x.value]))
  }

  /** The right-hand side `v` turns `s` into `s1`. The target is read before or behind it and located before or behind
      it; the intended assignment does both before. */
  predicate SameSum(m: Machine, t: Expr, op: BinaryOp, w: Value, s: Store, s1: Store) {
    var a, b := Held(Locate(m, t, s)), Held(Locate(m, t, s1));
    a.Some? && b.Some? && m.binary(op, a.value, w) == m.binary(op, b.value, w)
  }

  /** The place is the same, or both places hold the result already. */
  predicate SamePlace(m: Machine, t: Expr, x: Value, s: Store, s1: Store) {
    var a, b := Locate(m, t, s), Locate(m, t, s1);
    && a.Some? && b.Some?
    && (a.value.0 == b.value.0
        || (a.value.0 in s1 && s1[a.value.0] == x && b.value.0 in s1 && s1[b.value.0] == x))
  }

  /** The rewritten assignment, whatever its right-hand side does: read and located when the machine comes to it. */
  lemma RewrittenIs(m: Machine, t: Expr, op: BinaryOp, v: Expr, s: Store)
    requires Clonable(t) && m.LiteralsAreQuiet() && IsPlace(t) && op != And && op != Or
    ensures var w, l := Eval(m, v, s), Locate(m, t, s);
            && (w.None? ==> Eval(m, Assign(t, Binary(op, t, v)), s) == None && Once(m, t, op, v, s) == None)
            && (w.Some? ==>
                  var (x, s1) := w.value; var l1 := Locate(m, t, s1);
                  && Once(m, t, op, v, s) == Stored(m, op, Held(l), x, l, s1)
                  && Eval(m, Assign(t, Binary(op, t, v)), s) ==
                     if !m.valueFirst && l.None? then None
                     else Stored(m, op, Held(if m.rightFirst then l1 else l), x, if m.valueFirst then l1 else l, s1))
  {
    hide Eval, Locate, Clonable, Once, Stored, Held, IsPlace;
    ClonableIsQuiet(m, t, s);
    OnceIs(m, t, op, v, s);
    var w := Eval(m, v, s);
    if w.Some? {
      ClonableIsQuiet(m, t, w.value.1);
      SumIs(m, t, op, v, s, w.value.0, w.value.1);
      StoredIs(m, t, op, v, s, w.value.0, w.value.1);
    } else {
      NoSum(m, t, op, v, s);
    }
  }

  lemma OnceIs(m: Machine, t: Expr, op: BinaryOp, v: Expr, s: Store)
    requires Locate(m, t, s).Some? ==> Locate(m, t, s).value.1 == s
    ensures var w, l := Eval(m, v, s), Locate(m, t, s);
            Once(m, t, op, v, s) == if w.None? then None else Stored(m, op, Held(l), w.value.0, l, w.value.1)
  {
    hide Eval, Locate;
  }

  lemma NoSum(m: Machine, t: Expr, op: BinaryOp, v: Expr, s: Store)
    requires op != And && op != Or && Eval(m, v, s).None?
    requires IsPlace(t) && (Locate(m, t, s).Some? ==> Locate(m, t, s).value.1 == s)
    ensures Eval(m, Assign(t, Binary(op, t, v)), s) == None
  {
    hide Eval, Locate, IsPlace, Held;
    PlaceIs(m, t, s);
    BinaryIs(m, op, t, v, s);
    AssignIs(m, t, Binary(op, t, v), s);
  }

  /** The sum, combined in the order of the machine. */
  lemma SumIs(m: Machine, t: Expr, op: BinaryOp, v: Expr, s: Store, w: Value, s1: Store)
    requires op != And && op != Or && IsPlace(t) && Eval(m, v, s) == Some((w, s1))
    requires Locate(m, t, s).Some? ==> Locate(m, t, s).value.1 == s
    requires Locate(m, t, s1).Some? ==> Locate(m, t, s1).value.1 == s1
    ensures var h := Held(Locate(m, t, if m.rightFirst then s1 else s));
            Eval(m, Binary(op, t, v), s) == if h.None? then None else WithStore(m.binary(op, h.value, w), s1)
  {
    hide Eval, Locate, IsPlace, Held;
    PlaceIs(m, t, s);
    PlaceIs(m, t, s1);
    BinaryIs(m, op, t, v, s);
  }

  /** The sum, stored where the machine finds the target. */
  lemma StoredIs(m: Machine, t: Expr, op: BinaryOp, v: Expr, s: Store, w: Value, s1: Store)
    requires Locate(m, t, s).Some? ==> Locate(m, t, s).value.1 == s
    requires Locate(m, t, s1).Some? ==> Locate(m, t, s1).value.1 == s1
    requires var h := Held(Locate(m, t, if m.rightFirst then s1 else s));
             Eval(m, Binary(op, t, v), s) == if h.None? then None else WithStore(m.binary(op, h.value, w), s1)
    ensures var l, l1 := Locate(m, t, s), Locate(m, t, s1);
            Eval(m, Assign(t, Binary(op, t, v)), s) ==
              if !m.valueFirst && l.None? then None
              else Stored(m, op, Held(if m.rightFirst then l1 else l), w, if m.valueFirst then l1 else l, s1)
  {
    hide Eval, Locate, Held;
    AssignIs(m, t, Binary(op, t, v), s);
  }

  /** Reading a place that is quiet to locate. */
  lemma PlaceIs(m: Machine, t: Expr, s: Store)
    requires IsPlace(t) && (Locate(m, t, s).Some? ==> Locate(m, t, s).value.1 == s)
    ensures Eval(m, t, s) == if Held(Locate(m, t, s)).None? then None else Some((Held(Locate(m, t, s)).value, s))
  {
    hide Locate;
  }

  lemma BinaryIs(m: Machine, op: BinaryOp, t: Expr, v: Expr, s: Store)
    requires op != And && op != Or
    requires Eval(m, t, s).Some? ==> Eval(m, t, s).value.1 == s
    requires Eval(m, v, s).Some? ==>
               var s1 := Eval(m, v, s).value.1; Eval(m, t, s1).Some? ==> Eval(m, t, s1).value.1 == s1
    ensures var w := Eval(m, v, s);
            && (w.None? ==> Eval(m, Binary(op, t, v), s) == None)
            && (w.Some? ==>
                  var r := Eval(m, t, if m.rightFirst then w.value.1 else s);
                  Eval(m, Binary(op, t, v), s) ==
                    if r.None? then None else WithStore(m.binary(op, r.value.0, w.value.0), w.value.1))
  {
    assert Eval(m, Binary(op, t, v), s) == EvalBinary(m, op, t, v, s);
    EvalBinaryIs(m, op, t, v, s);
  }

  lemma EvalBinaryIs(m: Machine, op: BinaryOp, t: Expr, v: Expr, s: Store)
    requires op != And && op != Or
    ensures EvalBinary(m, op, t, v, s) ==
              var first := Eval(m, if m.rightFirst then v else t, s);
              if first.None? then None else
              var second := Eval(m, if m.rightFirst then t else v, first.value.1);
              if second.None? then None else
              var (a, b) := if m.rightFirst then (second, first) else (first, second);
              WithStore(m.binary(op, a.value.0, b.value.0), second.value.1)
  {
    hide Eval;
  }

  lemma AssignIs(m: Machine, t: Expr, v: Expr, s: Store)
    requires Locate(m, t, s).Some? ==> Locate(m, t, s).value.1 == s
    requires Eval(m, v, s).Some? ==>
               var s1 := Eval(m, v, s).value.1; Locate(m, t, s1).Some? ==> Locate(m, t, s1).value.1 == s1
    ensures var w := Eval(m, v, s);
            Eval(m, Assign(t, v), s) ==
              if w.None? then None else
              var l := Locate(m, t, if m.valueFirst then w.value.1 else s);
              if l.None? then None else Some((w.value.0, w.value.1[l.value.0 := w.value.0]))
  {
    hide Locate;
  }

  lemma SameUpdate(s: Store, a: Loc, b: Loc, x: Value)
    ensures s[a := x] == s[b := x] <==> a == b || (a in s && s[a] == x && b in s && s[b] == x)
  {
    if s[a := x] == s[b := x] && a != b {
      assert s[a := x][a] == s[b := x][a] && s[a := x][b] == s[b := x][b];
      assert a in s[b := x] && b in s[a := x];
    }
    if a in s && s[a] == x && b in s && s[b] == x {
      assert s[a := x] == s && s[b := x] == s;
    }
  }

  /** For any right-hand side, also one that writes: the rewritten assignment does what was meant if and only if, where
      the machine reads the target behind it, the sum is the same, and where it locates the target behind it, the place
      is. An assignment that was meant to fault must fault. */
  lemma RewrittenExactly(m: Machine, t: Expr, op: BinaryOp, v: Expr, s: Store, w: Value, s1: Store)
    requires Clonable(t) && m.LiteralsAreQuiet() && IsPlace(t) && op != And && op != Or
    requires Eval(m, v, s) == Some((w, s1))
    ensures Once(m, t, op, v, s).Some? ==>
              (Eval(m, Assign(t, Binary(op, t, v)), s) == Once(m, t, op, v, s) <==>
                 && (m.rightFirst ==> SameSum(m, t, op, w, s, s1))
                 && (m.valueFirst ==> SamePlace(m, t, Once(m, t, op, v, s).value.0, s, s1)))
    ensures Once(m, t, op, v, s).None? ==>
              (Eval(m, Assign(t, Binary(op, t, v)), s) == Once(m, t, op, v, s) <==>
                 var l := Locate(m, t, s); var l1 := Locate(m, t, s1);
                 || (!m.valueFirst && l.None?) || (m.valueFirst && l1.None?)
                 || var h := Held(if m.rightFirst then l1 else l); h.None? || m.binary(op, h.value, w).None?)
  {
    hide Eval, Locate, Once, Clonable, Stored, Held, IsPlace;
    RewrittenIs(m, t, op, v, s);
    var l, l1 := Locate(m, t, s), Locate(m, t, s1);
    StoredAgree(m, op, Held(l), l, Held(if m.rightFirst then l1 else l), if m.valueFirst then l1 else l, w, s1);
  }

  lemma StoredAgree(m: Machine, op: BinaryOp, a: Option<Value>, p: Option<(Loc, Store)>, b: Option<Value>,
                    q: Option<(Loc, Store)>, w: Value, s: Store)
    ensures var x, y := Stored(m, op, a, w, p, s), Stored(m, op, b, w, q, s);
            && (x.Some? ==> a.Some? && p.Some? && m.binary(op, a.value, w) == Some(x.value.0))
            && (x.Some? ==>
                  (y == x <==>
                     && b.Some? && q.Some? && m.binary(op, b.value, w) == m.binary(op, a.value, w)
                     && (p.value.0 == q.value.0 || (p.value.0 in s && s[p.value.0] == x.value.0
                                                    && q.value.0 in s && s[q.value.0] == x.value.0))))
            && (y.None? <==> q.None? || b.None? || m.binary(op, b.value, w).None?)
  {
    var x, y := Stored(m, op, a, w, p, s), Stored(m, op, b, w, q, s);
    if x.Some? && y.Some? {
      SameUpdate(s, p.value.0, q.value.0, x.value.0);
    }
  }

  /** In particular a right-hand side that leaves the target where it is and what it holds may write anything else. */
  lemma UntouchedTarget(m: Machine, t: Expr, op: BinaryOp, v: Expr, s: Store, w: Value, s1: Store)
    requires Clonable(t) && m.LiteralsAreQuiet() && IsPlace(t) && op != And && op != Or
    requires Eval(m, v, s) == Some((w, s1)) && Locate(m, t, s).Some? == Locate(m, t, s1).Some?
    requires Locate(m, t, s).Some? ==> Locate(m, t, s).value.0 == Locate(m, t, s1).value.0
    requires Held(Locate(m, t, s)) == Held(Locate(m, t, s1))
    ensures Eval(m, Assign(t, Binary(op, t, v)), s) == Once(m, t, op, v, s)
  {
    hide Eval, Locate, Once, Clonable;
    RewrittenIs(m, t, op, v, s);
  }

  /** `f()` sets `i` to one and returns one; operands are evaluated from the left, but the value of an
      assignment before its place. */
  function CallSetsIndex(): Machine {
    Machine(
      (e: Expr, s: Store) => if e.Call? then Some((Int(1), s[Var("i") := Int(1)])) else None,
      (op, x) => None,
      (op: BinaryOp, x: Value, y: Value) => if x.Int? && y.Int? then Some(Int(x.n + y.n)) else None,
      x => false, false, true)
  }

  lemma IndexedPlace(m: Machine, s: Store, n: int)
    requires Var("i") in s && s[Var("i")] == Int(n) && Var("a") !in s && Fld(Var("a"), "data") !in s
    ensures Locate(m, Index(Name("a"), Name("i")), s) == Some((Elem(Var("a"), n), s))
  {
    assert Eval(m, Name("i"), s) == Some((Int(n), s));
  }

  /** When the value is evaluated first and moves the place, the sum of the old content is stored at the
      new place. */
  lemma StoredElsewhere(m: Machine, t: Expr, op: BinaryOp, v: Expr, s: Store, from: Loc, w: Value, s1: Store, to: Loc,
                        x: Value)
    requires m.valueFirst && !m.rightFirst && op != And && op != Or && IsPlace(t) && from in s
    requires Locate(m, t, s) == Some((from, s)) && Eval(m, v, s) == Some((w, s1)) && Locate(m, t, s1) == Some((to, s1))
    requires m.binary(op, s[from], w) == Some(x)
    ensures Once(m, t, op, v, s) == Some((x, s1[from := x]))
    ensures Eval(m, Assign(t, Binary(op, t, v)), s) == Some((x, s1[to := x]))
  {
    hide Locate;
    assert Eval(m, t, s) == Some((s[from], s));
    assert EvalBinary(m, op, t, v, s) == Some((x, s1));
  }

  /** With a right-hand side that writes the two differ: after `a[i] += f()`, where `f` changes `i`, the sum
      is in another element. */
  lemma WritingOperandMatters()
    ensures var m := CallSetsIndex();
            var t, v := Index(Name("a"), Name("i")), Call(Name("f"), NoArgs);
            var a0, a1 := Elem(Var("a"), 0), Elem(Var("a"), 1);
            var s: Store := map[Var("i") := Int(0), a0 := Int(10), a1 := Int(20)];
            && m.LiteralsAreQuiet() && Clonable(t)
            && Once(m, t, Add, v, s) == Some((Int(11), map[Var("i") := Int(1), a0 := Int(11), a1 := Int(20)]))
            && Eval(m, Assign(t, Binary(Add, t, v)), s)
               == Some((Int(11), map[Var("i") := Int(1), a0 := Int(10), a1 := Int(11)]))
  {
    hide Locate, Eval, Once;
    var m := CallSetsIndex();
    var t, v := Index(Name("a"), Name("i")), Call(Name("f"), NoArgs);
    var a0, a1 := Elem(Var("a"), 0), Elem(Var("a"), 1);
    var s: Store := map[Var("i") := Int(0), a0 := Int(10), a1 := Int(20)];
    var s1 := s[Var("i") := Int(1)];
    IndexedPlace(m, s, 0);
    IndexedPlace(m, s1, 1);
    CallEvaluates(s);
    StoredElsewhere(m, t, Add, v, s, a0, Int(1), s1, a1, Int(11));
    assert s1[a0 := Int(11)] == map[Var("i") := Int(1), a0 := Int(11), a1 := Int(20)];
    assert s1[a1 := Int(11)] == map[Var("i") := Int(1), a0 := Int(10), a1 := Int(11)];
  }

  lemma CallEvaluates(s: Store)
    ensures Eval(CallSetsIndex(), Call(Name("f"), NoArgs), s) == Some((Int(1), s[Var("i") := Int(1)]))
  {}
}
