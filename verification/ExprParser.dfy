/** The recursive-descent parser: a cursor over the tokens, moved by one method for each rule. None stands for
    a thrown parse error; the cursor then stays where the error was found. */
module ExprParser {
  import opened Options
  import opened ExprSyntax
  import opened ExprGrammar

  /** What a method returns for a result of the grammar. */
  function Outcome<T>(p: Parse<T>): Option<T> {
    if p.Ok? then Some(p.value) else None
  }

  // ----- lists that loops build at their end -----

  function Join(a: Args, b: Args): Args {
    match a
    case NoArgs => b
    case Arg(e, tail) => Arg(e, Join(tail, b))
    case TypeArg(t, tail) => TypeArg(t, Join(tail, b))
  }

  function JoinTypes(a: Types, b: Types): Types {
    if a.NoTypes? then b else OneType(a.head, JoinTypes(a.tail, b))
  }

  function JoinFields(a: Fields, b: Fields): Fields {
    if a.NoFields? then b else Field(a.name, a.value, JoinFields(a.rest, b))
  }

  lemma {:induction a} JoinAssociates(a: Args, b: Args, c: Args)
    ensures Join(Join(a, b), c) == Join(a, Join(b, c)) && Join(a, NoArgs) == a
  {}

  lemma JoinOne(one: Args, more: Args)
    requires !one.NoArgs? && one.tail == NoArgs
    ensures one.(tail := more) == Join(one, more)
  {}

  lemma {:induction a} JoinTypesAssociates(a: Types, b: Types, c: Types)
    ensures JoinTypes(JoinTypes(a, b), c) == JoinTypes(a, JoinTypes(b, c)) && JoinTypes(a, NoTypes) == a
  {}

  lemma {:induction a} JoinFieldsAssociates(a: Fields, b: Fields, c: Fields)
    ensures JoinFields(JoinFields(a, b), c) == JoinFields(a, JoinFields(b, c)) && JoinFields(a, NoFields) == a
  {}

  /** The end of an argument list behind the arguments read so far. */
  function ArgsAfter(acc: Args, toks: seq<Token>): Parse<Args>
    requires Terminated(toks)
  {
    if toks[0] != Sym(Comma) then Ok(acc, toks)
    else
      var more := ParseArgs(Truk, toks[1..]);
      if more.Err? then more else Ok(Join(acc, more.value), more.rest)
  }

  lemma ArgsContinue(acc: Args, toks: seq<Token>)
    requires Terminated(toks) && toks[0] == Sym(Comma)
    ensures var one := ParseArg(Truk, toks[1..]);
            ArgsAfter(acc, toks) == if one.Err? then one else ArgsAfter(Join(acc, one.value), one.rest)
  {
    hide ParseArg;
    var one := ParseArg(Truk, toks[1..]);
    if one.Ok? && one.rest[0] == Sym(Comma) {
      var more := ParseArgs(Truk, one.rest[1..]);
      if more.Ok? {
        assert one.value.(tail := more.value) == Join(one.value, more.value);
        JoinAssociates(acc, one.value, more.value);
      }
    }
  }

  lemma ArgsStart(toks: seq<Token>)
    requires Terminated(toks)
    ensures var one := ParseArg(Truk, toks);
            ParseArgs(Truk, toks) == if one.Err? then one else ArgsAfter(one.value, one.rest)
  {
    hide ParseArg, Join;
    var one := ParseArg(Truk, toks);
    if one.Ok? && one.rest[0] == Sym(Comma) {
      var more := ParseArgs(Truk, one.rest[1..]);
      if more.Ok? { JoinOne(one.value, more.value); }
      assert more.Ok? ==> one.value.(tail := more.value) == Join(one.value, more.value);
    }
  }

  /** The end of an array literal behind the elements read so far; a comma may close it. */
  function ElementsAfter(acc: Args, toks: seq<Token>): Parse<Args>
    requires Terminated(toks)
  {
    if toks[0] != Sym(Comma) then Ok(acc, toks)
    else if toks[1] == Sym(RightBracket) then Ok(acc, toks[1..])
    else
      var more := ParseElements(Truk, toks[1..]);
      if more.Err? then more else Ok(Join(acc, more.value), more.rest)
  }

  lemma ElementsContinue(acc: Args, toks: seq<Token>)
    requires Terminated(toks) && toks[0] == Sym(Comma) && toks[1] != Sym(RightBracket)
    ensures var e := ParseExpr(Truk, toks[1..]);
            ElementsAfter(acc, toks) == if e.Err? then Err(e.rest) else ElementsAfter(Join(acc, Arg(e.value, NoArgs)), e.rest)
  {
    hide ParseExpr;
    var e := ParseExpr(Truk, toks[1..]);
    if e.Ok? {
      JoinAssociates(acc, Arg(e.value, NoArgs), NoArgs);
      if e.rest[0] == Sym(Comma) && e.rest[1] != Sym(RightBracket) {
        var more := ParseElements(Truk, e.rest[1..]);
        if more.Ok? { JoinAssociates(acc, Arg(e.value, NoArgs), more.value); }
      }
    }
  }

  lemma ElementsStart(toks: seq<Token>)
    requires Terminated(toks)
    ensures var e := ParseExpr(Truk, toks);
            ParseElements(Truk, toks) == if e.Err? then Err(e.rest) else ElementsAfter(Arg(e.value, NoArgs), e.rest)
  {
    hide ParseExpr;
    var e := ParseExpr(Truk, toks);
    if e.Ok? && e.rest[0] == Sym(Comma) && e.rest[1] != Sym(RightBracket) {
      var more := ParseElements(Truk, e.rest[1..]);
      assert more.Ok? ==> Arg(e.value, more.value) == Join(Arg(e.value, NoArgs), more.value);
    }
  }

  /** One field initialiser. */
  function OneField(toks: seq<Token>): (r: Parse<Fields>)
    requires Terminated(toks)
    ensures Consumes(r, toks) && (r.Ok? ==> r.value.Field? && r.value.rest == NoFields)
  {
    if !toks[0].Ident? then Err(toks)
    else if toks[1] != Sym(Colon) then Err(toks[1..])
    else
      var v := ParseExpr(Truk, toks[2..]);
      if v.Err? then Err(v.rest) else Ok(Field(toks[0].name, v.value, NoFields), v.rest)
  }

  /** The end of a struct literal behind the fields read so far; a comma may close it. */
  function FieldsAfter(acc: Fields, toks: seq<Token>): Parse<Fields>
    requires Terminated(toks)
  {
    if toks[0] != Sym(Comma) then Ok(acc, toks)
    else if toks[1] == Sym(RightBrace) then Ok(acc, toks[1..])
    else
      var more := ParseFields(Truk, toks[1..]);
      if more.Err? then more else Ok(JoinFields(acc, more.value), more.rest)
  }

  lemma FieldsStart(toks: seq<Token>)
    requires Terminated(toks)
    ensures var f := OneField(toks);
            ParseFields(Truk, toks) == if f.Err? then f else FieldsAfter(f.value, f.rest)
  {
    hide ParseExpr;
    var f := OneField(toks);
    if f.Ok? && f.rest[0] == Sym(Comma) && f.rest[1] != Sym(RightBrace) {
      var more := ParseFields(Truk, f.rest[1..]);
      assert more.Ok? ==> f.value.(rest := more.value) == JoinFields(f.value, more.value);
    }
  }

  lemma FieldsContinue(acc: Fields, toks: seq<Token>)
    requires Terminated(toks) && toks[0] == Sym(Comma) && toks[1] != Sym(RightBrace)
    ensures var f := OneField(toks[1..]);
            FieldsAfter(acc, toks) == if f.Err? then f else FieldsAfter(JoinFields(acc, f.value), f.rest)
  {
    hide OneField, ParseFields;
    FieldsStart(toks[1..]);
    var f := OneField(toks[1..]);
    if f.Ok? {
      JoinFieldsAssociates(acc, f.value, NoFields);
      if f.rest[0] == Sym(Comma) && f.rest[1] != Sym(RightBrace) {
        var more := ParseFields(Truk, f.rest[1..]);
        if more.Ok? { JoinFieldsAssociates(acc, f.value, more.value); }
      }
    }
  }

  /** The end of a list of types, read by parse_type_internal (`strict`) or by parse_type. */
  function TypesAfter(strict: bool, acc: Types, toks: seq<Token>): Parse<Types>
    requires Terminated(toks)
  {
    if toks[0] != Sym(Comma) then Ok(acc, toks)
    else
      var more := TypeList(strict, toks[1..]);
      if more.Err? then more else Ok(JoinTypes(acc, more.value), more.rest)
  }

  function TypeList(strict: bool, toks: seq<Token>): (r: Parse<Types>)
    requires Terminated(toks)
    ensures Continues(r, toks)
  {
    if strict then ParseTypes(Truk, toks) else ParseParamTypes(Truk, toks)
  }

  function OneOfTypes(strict: bool, toks: seq<Token>): (r: Parse<Type>)
    requires Terminated(toks)
    ensures Continues(r, toks)
  {
    if strict then ParseType(Truk, toks) else ParseTypeOrBroken(Truk, toks)
  }

  lemma TypesStart(strict: bool, toks: seq<Token>)
    requires Terminated(toks)
    ensures var t := OneOfTypes(strict, toks);
            TypeList(strict, toks) == if t.Err? then Err(t.rest) else TypesAfter(strict, OneType(t.value, NoTypes), t.rest)
  {
    hide ParseType, ParseTypeOrBroken;
    var t := OneOfTypes(strict, toks);
    if t.Ok? && t.rest[0] == Sym(Comma) {
      var more := TypeList(strict, t.rest[1..]);
      assert more.Ok? ==> OneType(t.value, more.value) == JoinTypes(OneType(t.value, NoTypes), more.value);
    }
  }

  lemma TypesContinue(strict: bool, acc: Types, toks: seq<Token>)
    requires Terminated(toks) && toks[0] == Sym(Comma)
    ensures var t := OneOfTypes(strict, toks[1..]);
            TypesAfter(strict, acc, toks) ==
              if t.Err? then Err(t.rest) else TypesAfter(strict, JoinTypes(acc, OneType(t.value, NoTypes)), t.rest)
  {
    hide TypeList, OneOfTypes;
    TypesStart(strict, toks[1..]);
    var t := OneOfTypes(strict, toks[1..]);
    if t.Ok? && t.rest[0] == Sym(Comma) {
      var more := TypeList(strict, t.rest[1..]);
      if more.Ok? { JoinTypesAssociates(acc, OneType(t.value, NoTypes), more.value); }
    }
    if t.Ok? { JoinTypesAssociates(acc, OneType(t.value, NoTypes), NoTypes); }
  }

  lemma NoSuffix(e: Expr, toks: seq<Token>)
    requires Terminated(toks)
    ensures PostfixStep(Truk, e, toks).None? <==> toks[0] !in {Sym(LeftParen), Sym(LeftBracket), Sym(Dot), Sym(Arrow)}
  {
    hide ParseExpr, ParseArgs;
  }

  lemma FieldBehind(e: Expr, obj: Expr, toks: seq<Token>)
    requires Terminated(toks)
    requires (toks[0] == Sym(Dot) && obj == e) || (toks[0] == Sym(Arrow) && obj == Unary(Deref, e))
    ensures PostfixStep(Truk, e, toks) ==
            Some(if toks[1].Ident? then Ok(Member(obj, toks[1].name), toks[2..]) else Err(toks[1..]))
  {
    hide ParseExpr, ParseArgs;
  }

  lemma ElementsBehind(toks: seq<Token>)
    requires Terminated(toks) && toks[0] == Sym(LeftBracket)
    ensures Terminated(toks[1..])
    ensures ParsePrimary(Truk, toks) ==
            if toks[1] == Sym(RightBracket) then Ok(ArrayLiteral(NoArgs), toks[1..][1..])
            else
              var a := ParseElements(Truk, toks[1..]);
              if a.Err? || a.rest[0] != Sym(RightBracket) then Err(a.rest) else Ok(ArrayLiteral(a.value), a.rest[1..])
  {
    hide ParseElements, ParseExpr, ParseStruct, StructAhead;
  }

  lemma ArgumentsBehind(e: Expr, toks: seq<Token>)
    requires Terminated(toks) && toks[0] == Sym(LeftParen)
    ensures Terminated(toks[1..])
    ensures PostfixStep(Truk, e, toks) == Some(
            if toks[1] == Sym(RightParen) then Ok(Call(e, NoArgs), toks[1..][1..])
            else
              var a := ParseArgs(Truk, toks[1..]);
              if a.Err? || a.rest[0] != Sym(RightParen) then Err(a.rest) else Ok(Call(e, a.value), a.rest[1..]))
  {
    hide ParseArgs, ParseExpr;
  }

  /** The parameter types between the parentheses of a function type. */
  function Params(toks: seq<Token>): (r: Parse<Types>)
    requires Terminated(toks)
    ensures Continues(r, toks) && r.Ok?
  {
    if toks[0] == Sym(RightParen) then Ok(NoTypes, toks) else TypeList(false, toks)
  }

  /** The return type behind them; none means void. */
  function Return(toks: seq<Token>): (r: Parse<Type>)
    requires Terminated(toks)
    ensures Continues(r, toks) && r.Ok?
  {
    if toks[0] != Sym(Colon) then Ok(Primitive("void"), toks) else ParseTypeOrBroken(Truk, toks[1..])
  }

  lemma SignatureBehind(toks: seq<Token>)
    requires Terminated(toks) && toks[0] == Kw(FnKw)
    ensures Terminated(toks[1..])
    ensures ParseFunctionType(Truk, toks) ==
            if toks[1] != Sym(LeftParen) then Err(toks[1..])
            else
              var ps := Params(toks[1..][1..]);
              if ps.rest[0] != Sym(RightParen) then Err(ps.rest)
              else
                var t := Return(ps.rest[1..]);
                Ok(Function(ps.value, t.value), t.rest)
  {
    hide ParseTypeOrBroken, ParseParamTypes;
  }

  lemma BracesBehind(toks: seq<Token>)
    requires Terminated(toks) && toks[0].Ident? && StructAhead(toks)
    ensures toks[1] == Sym(LeftBrace) && Terminated(toks[2..])
    ensures ParseStruct(Truk, toks) ==
            if toks[2] == Sym(RightBrace) then Ok(StructLiteral(toks[0].name, NoFields), toks[2..][1..])
            else
              var f := ParseFields(Truk, toks[2..]);
              if f.Err? || f.rest[0] != Sym(RightBrace) then Err(f.rest)
              else Ok(StructLiteral(toks[0].name, f.value), f.rest[1..])
  {
    hide ParseFields;
  }

  // ----- the parser -----

  class Parser {
    const tokens: seq<Token>
    var current: nat

    ghost predicate Valid()
      reads this
    {
      Terminated(tokens) && current < |tokens|
    }

    /** The tokens still to be read. */
    ghost function Rest(): (r: seq<Token>)
      requires Valid()
      reads this
      ensures Terminated(r)
    {
      tokens[current..]
    }

    constructor (tokens: seq<Token>)
      requires Terminated(tokens)
      ensures Valid() && this.tokens == tokens && Rest() == tokens
    {
      this.tokens := tokens;
      current := 0;
    }

    // ----- the cursor -----

    function Peek(): (t: Token)
      requires Valid()
      reads this
      ensures t == Rest()[0]
    {
      tokens[current]
    }

    method Advance()
      requires Valid()
      modifies `current
      ensures Valid() && Rest() == if old(Rest())[0] == Eof then old(Rest()) else old(Rest())[1..]
    {
      if tokens[current] != Eof {
        current := current + 1;
      }
    }

    /** match, and consume where the caller turns false into an error. */
    method Match(t: Token) returns (b: bool)
      requires Valid() && t != Eof
      modifies `current
      ensures Valid() && b == (old(Rest())[0] == t) && Rest() == if b then old(Rest())[1..] else old(Rest())
    {
      b := Peek() == t;
      if b {
        Advance();
      }
    }

    method ConsumeIdentifier() returns (name: Option<string>)
      requires Valid()
      modifies `current
      ensures Valid()
      ensures var t := old(Rest())[0];
              && name == (if t.Ident? then Some(t.name) else None)
              && Rest() == if t.Ident? then old(Rest())[1..] else old(Rest())
    {
      match Peek()
      case Ident(id) =>
        Advance();
        name := Some(id);
      case _ =>
        name := None;
    }

    // ----- assignment and binary operators -----

    method Expression() returns (r: Option<Expr>)
      requires Valid()
      modifies `current
      ensures Valid()
      ensures var p := ParseExpr(Truk, old(Rest())); Rest() == p.rest && r == Outcome(p)
      decreases |Rest()|, 20
    {
      hide ParseBinary, OpAt, BinaryOf;
      var left := Level(1);
      if left.None? {
        return None;
      }
      var t := Peek();
      if t != Sym(Equal) && CompoundOf(t).None? {
        return left;
      }
      Advance();
      var value := Expression();
      if value.None? {
        return None;
      }
      var op := CompoundOf(t);
      if op.None? {
        return Some(Assign(left.value, value.value));
      }
      var copy := Clone(left.value);
      if copy.None? {
        return None;
      }
      r := Some(Assign(left.value, Binary(op.value, copy.value, value.value)));
    }

    method MatchOperator(level: nat) returns (op: Option<BinaryOp>)
      requires Valid()
      modifies `current
      ensures Valid() && op == OpAt(Truk, level, old(Rest())[0])
      ensures Rest() == if op.Some? then old(Rest())[1..] else old(Rest())
    {
      op := OpAt(Truk, level, Peek());
      if op.Some? {
        Advance();
      }
    }

    /** parse_logical_or, for level 1, down to parse_multiplicative, for level 10. */
    method Level(level: nat) returns (r: Option<Expr>)
      requires Valid() && 1 <= level <= MULTIPLICATIVE
      modifies `current
      ensures Valid()
      ensures var p := ParseBinary(Truk, level, old(Rest())); Rest() == p.rest && r == Outcome(p)
      decreases |Rest()|, 18 - level
    {
      hide OpAt, ParseRight, ParseCast, ExprSyntax.Level;
      if level == MULTIPLICATIVE {
        r := CastLevel();
      } else {
        r := Level(level + 1);
      }
      if r.None? {
        return;
      }
      var op := None;
      var e := r.value;
      assert LoopBinary(Truk, level, e, Rest()) == ParseBinary(Truk, level, old(Rest()));
      op := MatchOperator(level);
      while op.Some?
        invariant Valid() && |Rest()| < |old(Rest())|
        invariant ParseBinary(Truk, level, old(Rest())) ==
                  if op.None? then Ok(e, Rest())
                  else
                    var right := ParseRight(Truk, level, Rest());
                    if right.Err? then right else LoopBinary(Truk, level, Binary(op.value, e, right.value), right.rest)
        decreases |Rest()|
      {
        var right := Right(level);
        if right.None? {
          return None;
        }
        e := Binary(op.value, e, right.value);
        op := MatchOperator(level);
      }
      r := Some(e);
    }

    method Right(level: nat) returns (r: Option<Expr>)
      requires Valid() && 1 <= level <= MULTIPLICATIVE
      modifies `current
      ensures Valid()
      ensures var p := ParseRight(Truk, level, old(Rest())); Rest() == p.rest && r == Outcome(p)
      decreases |Rest()|, 18
    {
      hide ParseBinary, ParseUnary;
      if level == MULTIPLICATIVE {
        r := UnaryLevel();
      } else {
        r := Level(level + 1);
      }
    }

    // ----- casts, prefix and postfix operators -----

    method CastLevel() returns (r: Option<Expr>)
      requires Valid()
      modifies `current
      ensures Valid()
      ensures var p := ParseCast(Truk, old(Rest())); Rest() == p.rest && r == Outcome(p)
      decreases |Rest()|, 7
    {
      hide ParseUnary, ParseTypeOrBroken;
      r := UnaryLevel();
      if r.None? {
        return;
      }
      var e := r.value;
      var more := Match(Kw(AsKw));
      while more
        invariant Valid() && |Rest()| < |old(Rest())|
        invariant ParseCast(Truk, old(Rest())) ==
                  if !more then Ok(e, Rest())
                  else var t := ParseTypeOrBroken(Truk, Rest()); LoopCast(Truk, Cast(e, t.value), t.rest)
        decreases |Rest()|, more
      {
        var t := TypeOrBroken();
        e := Cast(e, t);
        more := Match(Kw(AsKw));
      }
      r := Some(e);
    }

    method UnaryLevel() returns (r: Option<Expr>)
      requires Valid()
      modifies `current
      ensures Valid()
      ensures var p := ParseUnary(Truk, old(Rest())); Rest() == p.rest && r == Outcome(p)
      decreases |Rest()|, 6
    {
      hide ParsePostfix;
      var op := UnaryOf(Peek());
      if op.None? {
        r := Postfix();
      } else {
        Advance();
        r := UnaryLevel();
        if r.Some? {
          r := Some(Unary(op.value, r.value));
        }
      }
    }

    method Postfix() returns (r: Option<Expr>)
      requires Valid()
      modifies `current
      ensures Valid()
      ensures var p := ParsePostfix(Truk, old(Rest())); Rest() == p.rest && r == Outcome(p)
      decreases |Rest()|, 5
    {
      hide ParsePrimary, PostfixStep;
      r := Primary();
      if r.None? {
        return;
      }
      var e := r.value;
      while true
        invariant Valid() && |Rest()| < |old(Rest())|
        invariant LoopPostfix(Truk, e, Rest()) == ParsePostfix(Truk, old(Rest()))
        decreases |Rest()|
      {
        var step := Suffix(e);
        if step.None? {
          return Some(e);
        }
        if step.value.None? {
          return None;
        }
        e := step.value.value;
      }
    }

    /** One turn of the loop of parse_postfix: a call, an index, a field, or nothing. */
    method Suffix(e: Expr) returns (r: Option<Option<Expr>>)
      requires Valid()
      modifies `current
      ensures Valid()
      ensures var p := PostfixStep(Truk, e, old(Rest()));
              if p.None? then r == None && Rest() == old(Rest()) else r == Some(Outcome(p.value)) && Rest() == p.value.rest
      decreases |Rest()|, 1
    {
      hide PostfixStep;
      NoSuffix(e, Rest());
      match Peek()
      case Sym(LeftParen) =>
        var call := CallSuffix(e);
        r := Some(call);
      case Sym(LeftBracket) =>
        var index := IndexSuffix(e);
        r := Some(index);
      case Sym(Dot) =>
        var member := FieldSuffix(e, e);
        r := Some(member);
      case Sym(Arrow) =>
        var member := FieldSuffix(e, Unary(Deref, e));
        r := Some(member);
      case _ =>
        r := None;
    }

    method CallSuffix(e: Expr) returns (r: Option<Expr>)
      requires Valid() && Rest()[0] == Sym(LeftParen)
      modifies `current
      ensures Valid()
      ensures var p := PostfixStep(Truk, e, old(Rest())); p.Some? && r == Outcome(p.value) && Rest() == p.value.rest
      decreases |Rest()|, 0
    {
      hide PostfixStep, ParseArgs;
      ArgumentsBehind(e, Rest());
      Advance();
      var args: Option<Args> := Some(NoArgs);
      if Peek() != Sym(RightParen) {
        args := Arguments();
      }
      if args.None? {
        return None;
      }
      var closed := Match(Sym(RightParen));
      r := if closed then Some(Call(e, args.value)) else None;
    }

    method IndexSuffix(e: Expr) returns (r: Option<Expr>)
      requires Valid() && Rest()[0] == Sym(LeftBracket)
      modifies `current
      ensures Valid()
      ensures var p := PostfixStep(Truk, e, old(Rest())); p.Some? && r == Outcome(p.value) && Rest() == p.value.rest
      decreases |Rest()|, 0
    {
      hide ParseExpr, ParseArgs;
      Advance();
      var i := Expression();
      if i.None? {
        return None;
      }
      var closed := Match(Sym(RightBracket));
      r := if closed then Some(Index(e, i.value)) else None;
    }

    /** `.` and `->`; the latter reads the field of what `e` points to. */
    method FieldSuffix(e: Expr, obj: Expr) returns (r: Option<Expr>)
      requires Valid()
      requires (Rest()[0] == Sym(Dot) && obj == e) || (Rest()[0] == Sym(Arrow) && obj == Unary(Deref, e))
      modifies `current
      ensures Valid()
      ensures var p := PostfixStep(Truk, e, old(Rest())); p.Some? && r == Outcome(p.value) && Rest() == p.value.rest
    {
      hide PostfixStep;
      FieldBehind(e, obj, Rest());
      Advance();
      var field := ConsumeIdentifier();
      r := if field.Some? then Some(Member(obj, field.value)) else None;
    }

    // ----- primary expressions -----

    method Primary() returns (r: Option<Expr>)
      requires Valid()
      modifies `current
      ensures Valid()
      ensures var p := ParsePrimary(Truk, old(Rest())); Rest() == p.rest && r == Outcome(p)
      decreases |Rest()|, 4
    {
      hide ParseExpr, ParseElements, ParseStruct, StructAhead;
      match Peek()
      case Lit(kind, lexeme) =>
        Advance();
        r := Some(Number(kind, lexeme));
      case Kw(TrueKw) =>
        Advance();
        r := Some(Bool(true));
      case Kw(FalseKw) =>
        Advance();
        r := Some(Bool(false));
      case Kw(NilKw) =>
        Advance();
        r := Some(Nil);
      case Ident(name) =>
        var struct := LooksLikeStruct();
        if struct {
          r := StructLiteralRule();
        } else {
          Advance();
          r := Some(Name(name));
        }
      case Sym(LeftParen) =>
        r := Parenthesised();
      case Sym(LeftBracket) =>
        r := ArrayLiteralRule();
      case _ =>
        r := None;
    }

    /** The lookahead of parse_primary moves the cursor and puts it back. */
    method LooksLikeStruct() returns (b: bool)
      requires Valid() && Rest()[0].Ident?
      modifies `current
      ensures Valid() && Rest() == old(Rest()) && b == StructAhead(old(Rest()))
    {
      var saved := current;
      b := false;
      Advance();
      if Peek() == Sym(LeftBrace) {
        Advance();
        if Peek() == Sym(RightBrace) {
          Advance();
          b := EndsExpression(Peek());
        } else if Peek().Ident? {
          Advance();
          b := Peek() in {Sym(Colon), Sym(RightBrace), Sym(Comma)};
        }
      }
      current := saved;
    }

    method Parenthesised() returns (r: Option<Expr>)
      requires Valid() && Rest()[0] == Sym(LeftParen)
      modifies `current
      ensures Valid()
      ensures var p := ParsePrimary(Truk, old(Rest())); Rest() == p.rest && r == Outcome(p)
      decreases |Rest()|, 2
    {
      hide ParseExpr, ParseStruct, StructAhead, ParseElements;
      Advance();
      r := Expression();
      if r.None? {
        return;
      }
      var closed := Match(Sym(RightParen));
      r := if closed then r else None;
    }

    method ArrayLiteralRule() returns (r: Option<Expr>)
      requires Valid() && Rest()[0] == Sym(LeftBracket)
      modifies `current
      ensures Valid()
      ensures var p := ParsePrimary(Truk, old(Rest())); Rest() == p.rest && r == Outcome(p)
      decreases |Rest()|, 2
    {
      hide ParsePrimary, ParseElements;
      ElementsBehind(Rest());
      Advance();
      var elems: Option<Args> := Some(NoArgs);
      if Peek() != Sym(RightBracket) {
        elems := Elements();
      }
      if elems.None? {
        return None;
      }
      var closed := Match(Sym(RightBracket));
      r := if closed then Some(ArrayLiteral(elems.value)) else None;
    }

    method StructLiteralRule() returns (r: Option<Expr>)
      requires Valid() && Rest()[0].Ident? && StructAhead(Rest())
      modifies `current
      ensures Valid()
      ensures var p := ParseStruct(Truk, old(Rest())); Rest() == p.rest && r == Outcome(p)
      decreases |Rest()|, 2
    {
      hide ParseFields, StructAhead, ParseStruct;
      var name := Peek().name;
      BracesBehind(Rest());
      Advance();
      Advance();
      var fields: Option<Fields> := Some(NoFields);
      if Peek() != Sym(RightBrace) {
        fields := FieldList();
      }
      if fields.None? {
        return None;
      }
      var closed := Match(Sym(RightBrace));
      r := if closed then Some(StructLiteral(name, fields.value)) else None;
    }

    method FieldInit() returns (r: Option<Fields>)
      requires Valid()
      modifies `current
      ensures Valid()
      ensures var p := OneField(old(Rest())); Rest() == p.rest && r == Outcome(p)
      decreases |Rest()|, 21
    {
      hide ParseExpr;
      var name := ConsumeIdentifier();
      if name.None? {
        return None;
      }
      var colon := Match(Sym(Colon));
      if !colon {
        return None;
      }
      var v := Expression();
      r := if v.Some? then Some(Field(name.value, v.value, NoFields)) else None;
    }

    method FieldList() returns (r: Option<Fields>)
      requires Valid()
      modifies `current
      ensures Valid()
      ensures var p := ParseFields(Truk, old(Rest())); Rest() == p.rest && r == Outcome(p)
      decreases |Rest()|, 22
    {
      hide ParseFields, OneField;
      FieldsStart(Rest());
      r := FieldInit();
      while r.Some?
        invariant Valid() && |Rest()| <= |old(Rest())| && (r.Some? ==> |Rest()| < |old(Rest())|)
        invariant r.Some? ==> FieldsAfter(r.value, Rest()) == ParseFields(Truk, old(Rest()))
        invariant r.None? ==> Err(Rest()) == ParseFields(Truk, old(Rest()))
        decreases |Rest()|, r.Some?
      {
        if Peek() == Sym(Comma) && tokens[current + 1] != Sym(RightBrace) {
          FieldsContinue(r.value, Rest());
        }
        var comma := Match(Sym(Comma));
        if !comma || Peek() == Sym(RightBrace) {
          return;
        }
        var f := FieldInit();
        r := if f.None? then None else Some(JoinFields(r.value, f.value));
      }
    }

    method Elements() returns (r: Option<Args>)
      requires Valid()
      modifies `current
      ensures Valid()
      ensures var p := ParseElements(Truk, old(Rest())); Rest() == p.rest && r == Outcome(p)
      decreases |Rest()|, 22
    {
      hide ParseElements, ParseExpr;
      ElementsStart(Rest());
      var e := Expression();
      r := if e.None? then None else Some(Arg(e.value, NoArgs));
      while r.Some?
        invariant Valid() && |Rest()| <= |old(Rest())| && (r.Some? ==> |Rest()| < |old(Rest())|)
        invariant r.Some? ==> ElementsAfter(r.value, Rest()) == ParseElements(Truk, old(Rest()))
        invariant r.None? ==> Err(Rest()) == ParseElements(Truk, old(Rest()))
        decreases |Rest()|, r.Some?
      {
        if Peek() == Sym(Comma) && tokens[current + 1] != Sym(RightBracket) {
          ElementsContinue(r.value, Rest());
        }
        var comma := Match(Sym(Comma));
        if !comma || Peek() == Sym(RightBracket) {
          return;
        }
        e := Expression();
        r := if e.None? then None else Some(Join(r.value, Arg(e.value, NoArgs)));
      }
    }

    method Argument() returns (r: Option<Args>)
      requires Valid()
      modifies `current
      ensures Valid()
      ensures var p := ParseArg(Truk, old(Rest())); Rest() == p.rest && r == Outcome(p)
      decreases |Rest()|, 21
    {
      hide ParseExpr, ParseType;
      var isType := Match(Sym(At));
      if isType {
        var t := TypeRule();
        r := if t.Some? then Some(TypeArg(t.value, NoArgs)) else None;
      } else {
        var e := Expression();
        r := if e.Some? then Some(Arg(e.value, NoArgs)) else None;
      }
    }

    method Arguments() returns (r: Option<Args>)
      requires Valid()
      modifies `current
      ensures Valid()
      ensures var p := ParseArgs(Truk, old(Rest())); Rest() == p.rest && r == Outcome(p)
      decreases |Rest()|, 22
    {
      hide ParseArgs, ParseArg;
      ArgsStart(Rest());
      r := Argument();
      while r.Some?
        invariant Valid() && |Rest()| <= |old(Rest())| && (r.Some? ==> |Rest()| < |old(Rest())|)
        invariant r.Some? ==> ArgsAfter(r.value, Rest()) == ParseArgs(Truk, old(Rest()))
        invariant r.None? ==> Err(Rest()) == ParseArgs(Truk, old(Rest()))
        decreases |Rest()|, r.Some?
      {
        if Peek() == Sym(Comma) {
          ArgsContinue(r.value, Rest());
        }
        var comma := Match(Sym(Comma));
        if !comma {
          return;
        }
        var one := Argument();
        r := if one.None? then None else Some(Join(r.value, one.value));
      }
    }

    // ----- types -----

    /** parse_type: an error is swallowed. */
    method TypeOrBroken() returns (t: Type)
      requires Valid()
      modifies `current
      ensures Valid()
      ensures var p := ParseTypeOrBroken(Truk, old(Rest())); Rest() == p.rest && t == p.value
      decreases |Rest()|, 4
    {
      hide ParseType;
      var r := TypeRule();
      t := if r.Some? then r.value else Broken;
    }

    /** parse_type_internal. */
    method TypeRule() returns (r: Option<Type>)
      requires Valid()
      modifies `current
      ensures Valid()
      ensures var p := ParseType(Truk, old(Rest())); Rest() == p.rest && r == Outcome(p)
      decreases |Rest()|, 3
    {
      hide ParseArrayType, ParseTupleType, ParseFunctionType, ParseMapType;
      match Peek()
      case Sym(Star) =>
        r := PointerType();
      case Sym(LeftBracket) =>
        r := ArrayType();
      case Sym(LeftParen) =>
        r := TupleType();
      case Kw(FnKw) =>
        r := FunctionType();
      case Kw(MapKw) =>
        r := MapType();
      case Kw(PrimitiveKw(name)) =>
        Advance();
        r := Some(Primitive(name));
      case Ident(id) =>
        Advance();
        r := Some(Named(id));
      case _ =>
        r := None;
    }

    method PointerType() returns (r: Option<Type>)
      requires Valid() && Rest()[0] == Sym(Star)
      modifies `current
      ensures Valid()
      ensures var p := ParseType(Truk, old(Rest())); Rest() == p.rest && r == Outcome(p)
      decreases |Rest()|, 2
    {
      hide ParseArrayType, ParseTupleType, ParseFunctionType, ParseMapType;
      Advance();
      var t := TypeRule();
      r := if t.Some? then Some(Pointer(t.value)) else None;
    }

    method ArrayType() returns (r: Option<Type>)
      requires Valid() && Rest()[0] == Sym(LeftBracket)
      modifies `current
      ensures Valid()
      ensures var p := ParseArrayType(Truk, old(Rest())); Rest() == p.rest && r == Outcome(p)
      decreases |Rest()|, 2
    {
      hide ParseExpr, ParseType;
      Advance();
      var size: Option<string> := None;
      if Peek() != Sym(RightBracket) {
        var n := Expression();
        if n.None? || !n.value.Number? || n.value.kind != Integer {
          return None;
        }
        size := Some(n.value.lexeme);
      }
      var closed := Match(Sym(RightBracket));
      if !closed {
        return None;
      }
      var t := TypeRule();
      r := if t.Some? then Some(ArrayOf(size, t.value)) else None;
    }

    method TupleType() returns (r: Option<Type>)
      requires Valid() && Rest()[0] == Sym(LeftParen)
      modifies `current
      ensures Valid()
      ensures var p := ParseTupleType(Truk, old(Rest())); Rest() == p.rest && r == Outcome(p)
      decreases |Rest()|, 2
    {
      hide ParseTypes;
      Advance();
      var ts: Option<Types> := Some(NoTypes);
      if Peek() != Sym(RightParen) {
        ts := TypeListRule(true);
      }
      if ts.None? {
        return None;
      }
      var closed := Match(Sym(RightParen));
      if !closed || ts.value.NoTypes? || ts.value.tail.NoTypes? {
        return None;
      }
      r := Some(TupleOf(ts.value));
    }

    /** The loops of parse_tuple_type and of parse_function_type. */
    method TypeListRule(strict: bool) returns (r: Option<Types>)
      requires Valid()
      modifies `current
      ensures Valid()
      ensures var p := TypeList(strict, old(Rest())); Rest() == p.rest && r == Outcome(p)
      decreases |Rest()|, 6
    {
      hide TypeList, OneOfTypes;
      TypesStart(strict, Rest());
      var t := OneTypeRule(strict);
      r := if t.None? then None else Some(OneType(t.value, NoTypes));
      while r.Some?
        invariant Valid() && |Rest()| <= |old(Rest())|
        invariant r.Some? ==> TypesAfter(strict, r.value, Rest()) == TypeList(strict, old(Rest()))
        invariant r.None? ==> Err(Rest()) == TypeList(strict, old(Rest()))
        decreases |Rest()|, r.Some?
      {
        if Peek() == Sym(Comma) {
          TypesContinue(strict, r.value, Rest());
        }
        var comma := Match(Sym(Comma));
        if !comma {
          return;
        }
        t := OneTypeRule(strict);
        r := if t.None? then None else Some(JoinTypes(r.value, OneType(t.value, NoTypes)));
      }
    }

    method OneTypeRule(strict: bool) returns (r: Option<Type>)
      requires Valid()
      modifies `current
      ensures Valid()
      ensures var p := OneOfTypes(strict, old(Rest())); Rest() == p.rest && r == Outcome(p)
      decreases |Rest()|, 5
    {
      hide ParseType, ParseTypeOrBroken;
      if strict {
        r := TypeRule();
      } else {
        var t := TypeOrBroken();
        r := Some(t);
      }
    }

    method FunctionType() returns (r: Option<Type>)
      requires Valid() && Rest()[0] == Kw(FnKw)
      modifies `current
      ensures Valid()
      ensures var p := ParseFunctionType(Truk, old(Rest())); Rest() == p.rest && r == Outcome(p)
      decreases |Rest()|, 2
    {
      hide ParseFunctionType, Params, Return;
      SignatureBehind(Rest());
      Advance();
      var open := Match(Sym(LeftParen));
      if !open {
        return None;
      }
      var params := ParamTypes();
      var closed := Match(Sym(RightParen));
      if !closed {
        return None;
      }
      var ret := ReturnType();
      r := Some(Function(params, ret));
    }

    method ParamTypes() returns (ts: Types)
      requires Valid()
      modifies `current
      ensures Valid()
      ensures var p := Params(old(Rest())); Rest() == p.rest && ts == p.value
      decreases |Rest()|, 7
    {
      hide ParseParamTypes;
      ts := NoTypes;
      if Peek() != Sym(RightParen) {
        var list := TypeListRule(false);
        ts := list.value;
      }
    }

    method ReturnType() returns (t: Type)
      requires Valid()
      modifies `current
      ensures Valid()
      ensures var p := Return(old(Rest())); Rest() == p.rest && t == p.value
      decreases |Rest()|, 5
    {
      hide ParseTypeOrBroken;
      var hasReturn := Match(Sym(Colon));
      t := Primitive("void");
      if hasReturn {
        t := TypeOrBroken();
      }
    }

    method MapType() returns (r: Option<Type>)
      requires Valid() && Rest()[0] == Kw(MapKw)
      modifies `current
      ensures Valid()
      ensures var p := ParseMapType(Truk, old(Rest())); Rest() == p.rest && r == Outcome(p)
      decreases |Rest()|, 2
    {
      hide ParseType;
      Advance();
      var open := Match(Sym(LeftBracket));
      if !open {
        return None;
      }
      var key := TypeRule();
      if key.None? {
        return None;
      }
      var comma := Match(Sym(Comma));
      if !comma {
        return None;
      }
      var value := TypeRule();
      if value.None? {
        return None;
      }
      var closed := Match(Sym(RightBracket));
      r := if closed then Some(MapOf(key.value, value.value)) else None;
    }
  }
}
