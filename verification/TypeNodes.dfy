/** Type nodes of the syntax tree, type entries of the checker, and the way from one to the other and back. */
module TypeNodes {
  import opened Options

  /** A type as written. `Missing` is the null that stands for a type which could not be parsed. */
  datatype Node =
    | Primitive(keyword: string)
    | Named(name: string)
    | Pointer(pointee: Node)
    | Array(element: Node, size: Option<nat>)
    | Function(params: Nodes, ret: Node, variadic: bool)
    | Map(key: Node, value: Node)
    | Tuple(elements: Nodes)
    | Missing

  datatype Nodes = NoNodes | OneNode(head: Node, tail: Nodes)

  /** A type as the checker keeps it. Pointers and arrays carry the name of what they are made of; only
      pointers count a depth. */
  datatype Entry =
    | PrimitiveEntry(name: string)
    | VoidEntry
    | StructEntry(name: string, fields: seq<string>)
    | EnumEntry(name: string, values: seq<string>)
    | PointerEntry(name: string, depth: nat, pointee: Entry)
    | ArrayEntry(name: string, element: Entry, size: Option<nat>)
    | FunctionEntry(params: Entries, ret: Entry, variadic: bool)
    | MapEntry(key: Entry, value: Entry)
    | TupleEntry(elements: Entries)
    | UntypedInteger
    | UntypedFloat

  datatype Entries = NoEntries | OneEntry(head: Entry, tail: Entries)

  // ----- the type table -----

  /** The registered types that are not void; all of them may be map keys. */
  const NUMBERS_AND_BOOL := {"i8", "i16", "i32", "i64", "u8", "u16", "u32", "u64", "f32", "f64", "bool"}

  type Table = map<string, Entry>

  /** The built-in types are registered under their keywords, structs and enums under their own names. */
  predicate WellFormed(table: Table) {
    && (forall n :: n in NUMBERS_AND_BOOL ==> n in table && table[n] == PrimitiveEntry(n))
    && "void" in table && table["void"] == VoidEntry
    && (forall n :: n in table && n !in NUMBERS_AND_BOOL && n != "void" ==>
          (table[n].StructEntry? || table[n].EnumEntry?) && table[n].name == n)
  }

  predicate Builtin(name: string) {
    name in NUMBERS_AND_BOOL || name == "void"
  }

  /** The parser makes primitive nodes of these keywords only. */
  predicate FromParser(t: Node) {
    match t
    case Primitive(k) => Builtin(k)
    case Named(_) => true
    case Pointer(p) => FromParser(p)
    case Array(e, _) => FromParser(e)
    case Function(ps, r, _) => AllFromParser(ps) && FromParser(r)
    case Map(k, v) => FromParser(k) && FromParser(v)
    case Tuple(es) => AllFromParser(es)
    case Missing => true
  }

  predicate AllFromParser(ts: Nodes) {
    ts.OneNode? ==> FromParser(ts.head) && AllFromParser(ts.tail)
  }

  // ----- from nodes to entries -----

  function NameOf(e: Entry): string {
    match e
    case PrimitiveEntry(n) => n
    case VoidEntry => "void"
    case StructEntry(n, _) => n
    case EnumEntry(n, _) => n
    case PointerEntry(n, _, _) => n
    case ArrayEntry(n, _, _) => n
    case FunctionEntry(_, _, _) => "function"
    case MapEntry(_, _) => "map"
    case TupleEntry(_) => "tuple"
    case UntypedInteger => "untyped_integer"
    case UntypedFloat => "untyped_float"
  }

  function DepthOf(e: Entry): nat {
    if e.PointerEntry? then e.depth else 0
  }

  /** is_valid_map_key_type. */
  predicate ValidKey(e: Entry) {
    match e
    case PrimitiveEntry(n) => n in NUMBERS_AND_BOOL
    case PointerEntry(n, depth, _) => depth == 1 && (n == "u8" || n == "i8")
    case _ => false
  }

  /** resolve_type: None for a type that is rejected. */
  function Resolve(table: Table, t: Node): Option<Entry> {
    match t
    case Primitive(k) => if k in table then Some(table[k]) else None
    case Named(n) => if n in table then Some(table[n]) else None
    case Pointer(p) =>
      var e := Resolve(table, p);
      if e.None? then None else Some(PointerEntry(NameOf(e.value), DepthOf(e.value) + 1, e.value))
    case Array(el, size) =>
      var e := Resolve(table, el);
      if e.None? then None else Some(ArrayEntry(NameOf(e.value), e.value, size))
    case Function(ps, r, _) =>
      var es := ResolveAll(table, ps);
      if es.None? then None else
      var e := Resolve(table, r);
      if e.None? then None else Some(FunctionEntry(es.value, e.value, false))
    case Map(k, v) =>
      var ke, ve := Resolve(table, k), Resolve(table, v);
      if ke.None? || ve.None? || !ValidKey(ke.value) then None else Some(MapEntry(ke.value, ve.value))
    case Tuple(ts) =>
      var es := ResolveAll(table, ts);
      if es.None? then None else Some(TupleEntry(es.value))
    case Missing => None
  }

  function ResolveAll(table: Table, ts: Nodes): Option<Entries> {
    if ts.NoNodes? then Some(NoEntries) else
    var e := Resolve(table, ts.head);
    if e.None? then None else
    var es := ResolveAll(table, ts.tail);
    if es.None? then None else Some(OneEntry(e.value, es.value))
  }

  // ----- and back -----

  /** create_type_node_from_entry. */
  function Create(e: Entry): Option<Node> {
    match e
    case PrimitiveEntry(n) => Some(Primitive(if Builtin(n) then n else "unknown"))
    case VoidEntry => Some(Primitive("void"))
    case StructEntry(n, _) => Some(Named(n))
    case EnumEntry(n, _) => Some(Named(n))
    case PointerEntry(_, _, p) =>
      var t := Create(p);
      if t.None? then None else Some(Pointer(t.value))
    case ArrayEntry(_, el, size) =>
      var t := Create(el);
      if t.None? then None else Some(Array(t.value, size))
    case FunctionEntry(ps, r, variadic) =>
      var ts := CreateAll(ps);
      if ts.None? then None else
      var t := Create(r);
      if t.None? then None else Some(Function(ts.value, t.value, variadic))
    case MapEntry(k, v) =>
      var kt, vt := Create(k), Create(v);
      if kt.None? || vt.None? then None else Some(Map(kt.value, vt.value))
    case TupleEntry(es) =>
      var ts := CreateAll(es);
      if ts.None? then None else Some(Tuple(ts.value))
    case UntypedInteger => Some(Primitive("i32"))
    case UntypedFloat => Some(Primitive("i32"))
  }

  function CreateAll(es: Entries): Option<Nodes> {
    if es.NoEntries? then Some(NoNodes) else
    var t := Create(es.head);
    if t.None? then None else
    var ts := CreateAll(es.tail);
    if ts.None? then None else Some(OneNode(t.value, ts.value))
  }

  // ----- the round trip -----

  /** What comes back: function types are no longer variadic, and a built-in type is a primitive node, however
      it was written. */
  function Normal(t: Node): Node {
    match t
    case Primitive(_) => t
    case Named(n) => if Builtin(n) then Primitive(n) else t
    case Pointer(p) => Pointer(Normal(p))
    case Array(e, size) => Array(Normal(e), size)
    case Function(ps, r, _) => Function(AllNormal(ps), Normal(r), false)
    case Map(k, v) => Map(Normal(k), Normal(v))
    case Tuple(ts) => Tuple(AllNormal(ts))
    case Missing => t
  }

  function AllNormal(ts: Nodes): Nodes {
    if ts.NoNodes? then ts else OneNode(Normal(ts.head), AllNormal(ts.tail))
  }

  /** No function type in it is variadic, and no name in it is the one of a built-in type. */
  predicate Plain(t: Node) {
    match t
    case Primitive(_) => true
    case Named(n) => !Builtin(n)
    case Pointer(p) => Plain(p)
    case Array(e, _) => Plain(e)
    case Function(ps, r, variadic) => !variadic && AllPlain(ps) && Plain(r)
    case Map(k, v) => Plain(k) && Plain(v)
    case Tuple(ts) => AllPlain(ts)
    case Missing => true
  }

  predicate AllPlain(ts: Nodes) {
    ts.OneNode? ==> Plain(ts.head) && AllPlain(ts.tail)
  }

  lemma {:induction false} NormalIsPlain(t: Node)
    ensures Normal(t) == t <==> Plain(t)
  {
    match t
    case Pointer(p) => NormalIsPlain(p);
    case Array(e, _) => NormalIsPlain(e);
    case Function(ps, r, _) => AllNormalIsPlain(ps); NormalIsPlain(r);
    case Map(k, v) => NormalIsPlain(k); NormalIsPlain(v);
    case Tuple(ts) => AllNormalIsPlain(ts);
    case _ =>
  }

  lemma {:induction false} AllNormalIsPlain(ts: Nodes)
    ensures AllNormal(ts) == ts <==> AllPlain(ts)
  {
    if ts.OneNode? {
      NormalIsPlain(ts.head);
      AllNormalIsPlain(ts.tail);
    }
  }

  lemma {:induction false} ComesBackNormal(table: Table, t: Node)
    requires WellFormed(table) && FromParser(t) && Resolve(table, t).Some?
    ensures Create(Resolve(table, t).value) == Some(Normal(t))
  {
    match t
    case Primitive(_) =>
    case Named(_) =>
    case Pointer(p) => ComesBackNormal(table, p);
    case Array(e, _) => ComesBackNormal(table, e);
    case Function(ps, r, _) => AllComeBackNormal(table, ps); ComesBackNormal(table, r);
    case Map(k, v) => ComesBackNormal(table, k); ComesBackNormal(table, v);
    case Tuple(ts) => AllComeBackNormal(table, ts);
  }

  lemma {:induction false} AllComeBackNormal(table: Table, ts: Nodes)
    requires WellFormed(table) && AllFromParser(ts) && ResolveAll(table, ts).Some?
    ensures CreateAll(ResolveAll(table, ts).value) == Some(AllNormal(ts))
  {
    if ts.OneNode? {
      ComesBackNormal(table, ts.head);
      AllComeBackNormal(table, ts.tail);
    }
  }

  /** Every accepted type survives the checker if and only if no function type in it is variadic (and no built-in
      type is written as a name, which the tokenizer rules out). */
  lemma SurvivesExactly(table: Table, t: Node)
    requires WellFormed(table) && FromParser(t) && Resolve(table, t).Some?
    ensures Create(Resolve(table, t).value) == Some(t) <==> Plain(t)
  {
    ComesBackNormal(table, t);
    NormalIsPlain(t);
  }

  /** A variadic function type comes back as another type. */
  lemma VariadicIsLost(table: Table)
    requires WellFormed(table)
    ensures var t := Function(OneNode(Primitive("i32"), NoNodes), Primitive("void"), true);
            && Resolve(table, t).Some?
            && Create(Resolve(table, t).value) == Some(t.(variadic := false))
  {
    var i := OneNode(Primitive("i32"), NoNodes);
    assert "i32" in NUMBERS_AND_BOOL;
    assert ResolveAll(table, i) == Some(OneEntry(PrimitiveEntry("i32"), NoEntries));
    assert CreateAll(OneEntry(PrimitiveEntry("i32"), NoEntries)) == Some(i);
  }

  lemma {:induction false} NormalResolvesAlike(table: Table, t: Node)
    requires WellFormed(table)
    ensures Resolve(table, Normal(t)) == Resolve(table, t)
  {
    match t
    case Pointer(p) => NormalResolvesAlike(table, p);
    case Array(e, _) => NormalResolvesAlike(table, e);
    case Function(ps, r, _) => AllNormalResolveAlike(table, ps); NormalResolvesAlike(table, r);
    case Map(k, v) => NormalResolvesAlike(table, k); NormalResolvesAlike(table, v);
    case Tuple(ts) => AllNormalResolveAlike(table, ts);
    case _ =>
  }

  lemma {:induction false} AllNormalResolveAlike(table: Table, ts: Nodes)
    requires WellFormed(table)
    ensures ResolveAll(table, AllNormal(ts)) == ResolveAll(table, ts)
  {
    if ts.OneNode? {
      NormalResolvesAlike(table, ts.head);
      AllNormalResolveAlike(table, ts.tail);
    }
  }

  /** To the checker itself nothing is lost: the node that comes back resolves to the same entry. */
  lemma EntriesAreStable(table: Table, t: Node)
    requires WellFormed(table) && FromParser(t) && Resolve(table, t).Some?
    ensures var e := Resolve(table, t).value;
            Create(e).Some? && Resolve(table, Create(e).value) == Some(e)
  {
    ComesBackNormal(table, t);
    NormalResolvesAlike(table, t);
  }

  // ----- names and depths -----

  /** How many stars a type starts with. */
  function StarsOf(t: Node): nat {
    if t.Pointer? then 1 + StarsOf(t.pointee) else 0
  }

  /** The name behind stars and brackets, and a word for what has no name. */
  function WrittenName(t: Node): string {
    match t
    case Primitive(k) => k
    case Named(n) => n
    case Pointer(p) => WrittenName(p)
    case Array(e, _) => WrittenName(e)
    case Function(_, _, _) => "function"
    case Map(_, _) => "map"
    case Tuple(_) => "tuple"
    case Missing => ""
  }

  /** The entry of a type carries the name it is written with, structs and enums included, and a pointer the number of
      its stars; pointers, arrays, functions, maps and tuples hold the entries of their parts. */
  lemma {:induction false} NamedAndCounted(table: Table, t: Node)
    requires WellFormed(table) && Resolve(table, t).Some?
    ensures var e := Resolve(table, t).value;
            && NameOf(e) == WrittenName(t) && DepthOf(e) == StarsOf(t)
            && match t
               case Pointer(p) => e == PointerEntry(WrittenName(p), StarsOf(p) + 1, Resolve(table, p).value)
               case Array(el, size) => e == ArrayEntry(WrittenName(el), Resolve(table, el).value, size)
               case Function(_, _, _) => e.FunctionEntry?
               case Map(k, v) => e == MapEntry(Resolve(table, k).value, Resolve(table, v).value)
               case Tuple(_) => e.TupleEntry?
               case _ => !e.PointerEntry? && !e.ArrayEntry?
  {
    match t
    case Pointer(p) => NamedAndCounted(table, p);
    case Array(e, _) => NamedAndCounted(table, e);
    case _ =>
  }

  function Stars(n: nat, t: Node): Node {
    if n == 0 then t else Pointer(Stars(n - 1, t))
  }

  /** Any number of stars in front of a name: the depth is their number and the name stays. */
  lemma {:induction false} StarsOnStruct(table: Table, n: nat, name: string)
    requires WellFormed(table) && name in table
    ensures var e := Resolve(table, Stars(n, Named(name)));
            e.Some? && DepthOf(e.value) == n && NameOf(e.value) == name
  {
    if n > 0 {
      StarsOnStruct(table, n - 1, name);
    }
  }

  // ----- map keys -----

  /** The keys that the error message of the source names: numbers, bool, and pointers to u8 or i8. */
  predicate DocumentedKey(t: Node) {
    match t
    case Primitive(k) => k in NUMBERS_AND_BOOL
    case Named(n) => n in NUMBERS_AND_BOOL
    case Pointer(p) => (p.Primitive? || p.Named?) && (WrittenName(p) == "u8" || WrittenName(p) == "i8")
    case _ => false
  }

  /** The keys that are accepted: also pointers to arrays, because an array is named after its elements. */
  lemma KeysExactly(table: Table, t: Node)
    requires WellFormed(table) && Resolve(table, t).Some?
    ensures ValidKey(Resolve(table, t).value) <==>
            DocumentedKey(t) || (t.Pointer? && t.pointee.Array? && (WrittenName(t) == "u8" || WrittenName(t) == "i8"))
  {
    if t.Pointer? {
      NamedAndCounted(table, t.pointee);
    }
  }

  /** What resolve_type demands of a type: every name is registered, nothing is missing, and map keys are keys. */
  predicate Acceptable(table: Table, t: Node) {
    match t
    case Primitive(k) => k in table
    case Named(n) => n in table
    case Pointer(p) => Acceptable(table, p)
    case Array(e, _) => Acceptable(table, e)
    case Function(ps, r, _) => AllAcceptable(table, ps) && Acceptable(table, r)
    case Map(k, v) =>
      && Acceptable(table, k) && Acceptable(table, v)
      && (DocumentedKey(k) || (k.Pointer? && k.pointee.Array? && (WrittenName(k) == "u8" || WrittenName(k) == "i8")))
    case Tuple(ts) => AllAcceptable(table, ts)
    case Missing => false
  }

  predicate AllAcceptable(table: Table, ts: Nodes) {
    ts.OneNode? ==> Acceptable(table, ts.head) && AllAcceptable(table, ts.tail)
  }

  /** It accepts exactly these types. */
  lemma {:induction false} ResolvesExactly(table: Table, t: Node)
    requires WellFormed(table)
    ensures Resolve(table, t).Some? <==> Acceptable(table, t)
  {
    hide DocumentedKey, WrittenName, ValidKey;
    match t
    case Pointer(p) => ResolvesExactly(table, p);
    case Array(e, _) => ResolvesExactly(table, e);
    case Function(ps, r, _) => AllResolveExactly(table, ps); ResolvesExactly(table, r);
    case Map(k, v) =>
      ResolvesExactly(table, k);
      ResolvesExactly(table, v);
      if Resolve(table, k).Some? { KeysExactly(table, k); }
    case Tuple(ts) => AllResolveExactly(table, ts);
    case _ =>
  }

  lemma {:induction false} AllResolveExactly(table: Table, ts: Nodes)
    requires WellFormed(table)
    ensures ResolveAll(table, ts).Some? <==> AllAcceptable(table, ts)
  {
    if ts.OneNode? {
      ResolvesExactly(table, ts.head);
      AllResolveExactly(table, ts.tail);
    }
  }

  /** A map with keys of type *[4]u8 is accepted, although its keys are no strings. */
  lemma ArrayPointerIsKey(table: Table)
    requires WellFormed(table)
    ensures var k := Pointer(Array(Primitive("u8"), Some(4)));
            !DocumentedKey(k) && Resolve(table, Map(k, Primitive("i32"))).Some?
  {
    assert "u8" in NUMBERS_AND_BOOL && "i32" in NUMBERS_AND_BOOL;
    var a := Array(Primitive("u8"), Some(4));
    assert Resolve(table, a).Some?;
    assert Resolve(table, Pointer(a)).Some?;
    KeysExactly(table, Pointer(a));
  }

  // ----- numbers -----

  /** The numbers are signed and unsigned integers of four widths and floats of two; with bool, these are the types that
      are neither void nor made by a program. */
  lemma NumbersAre(n: string)
    ensures n in NUMBERS_AND_BOOL <==>
            || n == "bool"
            || (n != "" && (n[0] == 'i' || n[0] == 'u') && n[1..] in {"8", "16", "32", "64"})
            || (n != "" && n[0] == 'f' && n[1..] in {"32", "64"})
  {
    Spelled(n, 'i', "8", "i8");
    Spelled(n, 'i', "16", "i16");
    Spelled(n, 'i', "32", "i32");
    Spelled(n, 'i', "64", "i64");
    Spelled(n, 'u', "8", "u8");
    Spelled(n, 'u', "16", "u16");
    Spelled(n, 'u', "32", "u32");
    Spelled(n, 'u', "64", "u64");
    Spelled(n, 'f', "32", "f32");
    Spelled(n, 'f', "64", "f64");
  }

  lemma Spelled(n: string, c: char, w: string, whole: string)
    requires whole == [c] + w
    ensures n == whole <==> n != "" && n[0] == c && n[1..] == w
  {
    if n != "" {
      assert n == [n[0]] + n[1..];
    }
    assert ([c] + w)[1..] == w;
  }

  /** A literal without a type becomes an i32, a float literal too. */
  lemma UntypedBecomesInt()
    ensures Create(UntypedInteger) == Create(UntypedFloat) == Some(Primitive("i32"))
  {}
}
