/** Reading emitted text as C: the braces and the `else`s leave no choice, so the text stands for the woven
    program and for no other. */
module DeferReading {
  import opened Options
  import opened DeferSyntax
  import opened DeferSource
  import opened DeferTarget
  import opened DeferWeaving
  import opened DeferProof
  import opened DeferEmitter

  datatype Read<T> = Got(value: T, rest: seq<Fragment>) | Bad

  /** One statement; an `else` belongs to the nearest `if`, and clauses come in the order if, else if, else. */
  function ReadStmt(fs: seq<Fragment>): (r: Read<Target>)
    ensures r.Got? ==> |r.rest| < |fs|
    decreases |fs|, 0
  {
    if fs == [] then Bad else
    match fs[0]
    case FAct(a) => Got(TAct(a), fs[1..])
    case FOpen =>
      var b := ReadBraces(fs);
      if b.Bad? then Bad else Got(TBlock(b.value), b.rest)
    case FIf(c) =>
      var b := ReadBraces(fs[1..]);
      if b.Bad? then Bad
      else if b.rest == [] || b.rest[0] != FElse then Got(TIf(c, b.value, None), b.rest)
      else
        var e := ReadStmt(b.rest[1..]);
        if e.Bad? then Bad else Got(TIf(c, b.value, Some(e.value)), e.rest)
    case FScrutinee(e) =>
      var c := ReadClauses(fs[1..]);
      if c.Bad? || !Grammatical(c.value) then Bad else Got(TMatch(e, c.value), c.rest)
    case FWhile(c) =>
      var b := ReadBraces(fs[1..]);
      if b.Bad? then Bad else Got(TWhile(c, b.value), b.rest)
    case FFor(i, t, p) =>
      var b := ReadBraces(fs[1..]);
      if b.Bad? then Bad else Got(TFor(i, t, p, b.value), b.rest)
    case FSave(es) => Got(TSave(es), fs[1..])
    case FReturnSaved => Got(TReturnSaved, fs[1..])
    case FReturnVoid => Got(TReturnVoid, fs[1..])
    case FReturn(e) => Got(TReturn(e), fs[1..])
    case FBreak => Got(TBreak, fs[1..])
    case FContinue => Got(TContinue, fs[1..])
    case _ => Bad
  }

  function ReadBraces(fs: seq<Fragment>): (r: Read<seq<Target>>)
    ensures r.Got? ==> |r.rest| < |fs|
    decreases |fs|, -1
  {
    if fs == [] || fs[0] != FOpen then Bad
    else
      var b := ReadList(fs[1..]);
      if b.Bad? || b.rest == [] || b.rest[0] != FClose then Bad else Got(b.value, b.rest[1..])
  }

  /** Statements up to a closing brace or the end. */
  function ReadList(fs: seq<Fragment>): (r: Read<seq<Target>>)
    ensures r.Got? ==> |r.rest| <= |fs|
    decreases |fs|, 1
  {
    if fs == [] || fs[0] == FClose then Got([], fs)
    else
      var s := ReadStmt(fs);
      if s.Bad? then Bad
      else
        var more := ReadList(s.rest);
        if more.Bad? then Bad else Got([s.value] + more.value, more.rest)
  }

  /** A chain of clauses; it goes on as long as clauses follow. */
  function ReadClauses(fs: seq<Fragment>): (r: Read<Clauses>)
    ensures r.Got? ==> |r.rest| <= |fs|
    decreases |fs|, 1
  {
    if fs == [] || !fs[0].FClause? then Got(NoClauses, fs)
    else
      var b := ReadBraces(fs[1..]);
      if b.Bad? then Bad
      else
        var more := ReadClauses(b.rest);
        if more.Bad? then Bad else Got(Clause(fs[0].kw, fs[0].pattern, b.value, more.value), more.rest)
  }

  /** What may stand behind a complete statement. */
  predicate Ends(rest: seq<Fragment>) {
    rest == [] || (rest[0] != FElse && !rest[0].FClause?)
  }

  lemma TextStarts(t: Target, rest: seq<Fragment>)
    ensures var fs := Text(t) + rest; fs != [] && fs[0] != FClose && Ends(fs)
  {}

  // ----- single steps of the reader -----

  lemma BlockStep(fs: seq<Fragment>, b: seq<Target>, rest: seq<Fragment>)
    requires fs != [] && fs[0] == FOpen && ReadBraces(fs) == Got(b, rest)
    ensures ReadStmt(fs) == Got(TBlock(b), rest)
  {
    hide ReadBraces;
  }

  lemma IfStep(cond: Expr, fs: seq<Fragment>, b: seq<Target>, rest: seq<Fragment>)
    requires ReadBraces(fs) == Got(b, rest) && Ends(rest)
    ensures ReadStmt([FIf(cond)] + fs) == Got(TIf(cond, b, None), rest)
  {
    hide ReadBraces;
    Headed(FIf(cond), [], fs);
  }

  lemma IfElseStep(cond: Expr, fs: seq<Fragment>, b: seq<Target>, after: seq<Fragment>, e: Target, rest: seq<Fragment>)
    requires ReadBraces(fs) == Got(b, [FElse] + after) && ReadStmt(after) == Got(e, rest)
    ensures ReadStmt([FIf(cond)] + fs) == Got(TIf(cond, b, Some(e)), rest)
  {
    hide ReadBraces;
    Headed(FIf(cond), [], fs);
    Headed(FElse, [], after);
  }

  lemma MatchStep(e: Expr, fs: seq<Fragment>, cs: Clauses, rest: seq<Fragment>)
    requires ReadClauses(fs) == Got(cs, rest) && Grammatical(cs)
    ensures ReadStmt([FScrutinee(e)] + fs) == Got(TMatch(e, cs), rest)
  {
    hide ReadClauses;
    Headed(FScrutinee(e), [], fs);
  }

  lemma WhileStep(cond: Expr, fs: seq<Fragment>, b: seq<Target>, rest: seq<Fragment>)
    requires ReadBraces(fs) == Got(b, rest)
    ensures ReadStmt([FWhile(cond)] + fs) == Got(TWhile(cond, b), rest)
  {
    hide ReadBraces;
    Headed(FWhile(cond), [], fs);
  }

  lemma ForStep(i: Option<Expr>, t: Option<Expr>, p: Option<Expr>, fs: seq<Fragment>, b: seq<Target>, rest: seq<Fragment>)
    requires ReadBraces(fs) == Got(b, rest)
    ensures ReadStmt([FFor(i, t, p)] + fs) == Got(TFor(i, t, p, b), rest)
  {
    hide ReadBraces;
    Headed(FFor(i, t, p), [], fs);
  }

  lemma ClauseStep(kw: Keyword, pattern: Option<Expr>, fs: seq<Fragment>, b: seq<Target>, more: seq<Fragment>, cs: Clauses,
                   rest: seq<Fragment>)
    requires ReadBraces(fs) == Got(b, more) && ReadClauses(more) == Got(cs, rest)
    ensures ReadClauses([FClause(kw, pattern)] + fs) == Got(Clause(kw, pattern, b, cs), rest)
  {
    hide ReadBraces;
    Headed(FClause(kw, pattern), [], fs);
  }

  /** Statements that are one fragment. */
  lemma LeafStep(t: Target, rest: seq<Fragment>)
    requires !t.TBlock? && !t.TIf? && !t.TMatch? && !t.TWhile? && !t.TFor?
    ensures ReadStmt(Text(t) + rest) == Got(t, rest)
  {
    hide ReadBraces, ReadClauses, ReadList;
    assert Text(t) + rest == [Text(t)[0]] + rest;
    Headed(Text(t)[0], [], rest);
  }

  // ----- the text of a statement, from its first fragment -----

  lemma IfShape(cond: Expr, thn: seq<Target>, els: Option<Target>, rest: seq<Fragment>)
    ensures Text(TIf(cond, thn, els)) + rest ==
            [FIf(cond)] + (Braces(TextList(thn)) + if els.Some? then [FElse] + (Text(els.value) + rest) else rest)
  {
    hide Braces, TextList;
    var h, b := [FIf(cond)], Braces(TextList(thn));
    if els.Some? {
      var e := Text(els.value);
      assert Text(TIf(cond, thn, els)) == h + b + ([FElse] + e);
      assert h + b + ([FElse] + e) + rest == h + (b + ([FElse] + (e + rest)));
    } else {
      assert h + b + [] + rest == h + (b + rest);
    }
  }

  lemma ClausesShape(cs: Clauses, rest: seq<Fragment>)
    requires cs.Clause?
    ensures TextClauses(cs) + rest ==
            [FClause(cs.kw, cs.pattern)] + (Braces(TextList(cs.body)) + (TextClauses(cs.rest) + rest))
  {
    hide Braces, TextList;
    var h, b, c := [FClause(cs.kw, cs.pattern)], Braces(TextList(cs.body)), TextClauses(cs.rest);
    assert h + b + c + rest == h + (b + (c + rest));
  }

  lemma HeadShape(t: Target, rest: seq<Fragment>)
    ensures t.TMatch? ==> Text(t) + rest == [FScrutinee(t.scrutinee)] + (TextClauses(t.clauses) + rest)
    ensures t.TWhile? ==> Text(t) + rest == [FWhile(t.cond)] + (Braces(TextList(t.body)) + rest)
    ensures t.TFor? ==> Text(t) + rest == [FFor(t.init, t.test, t.post)] + (Braces(TextList(t.body)) + rest)
    ensures t.TBlock? ==> Text(t) == Braces(TextList(t.body))
  {
    hide Braces, TextList, TextClauses;
    if t.TMatch? {
      Headed(FScrutinee(t.scrutinee), TextClauses(t.clauses), rest);
    } else if t.TWhile? {
      Headed(FWhile(t.cond), Braces(TextList(t.body)), rest);
    } else if t.TFor? {
      Headed(FFor(t.init, t.test, t.post), Braces(TextList(t.body)), rest);
    }
  }

  // ----- reading back -----

  lemma {:induction false} StmtReadsBack(t: Target, rest: seq<Fragment>)
    requires InGrammar(t) && Ends(rest)
    ensures ReadStmt(Text(t) + rest) == Got(t, rest)
    decreases t, 1
  {
    hide ReadStmt, ReadBraces, ReadClauses, Braces, TextList, TextClauses, Text;
    HeadShape(t, rest);
    match t
    case TBlock(body) =>
      BracesReadBack(body, rest);
      OpensWithBrace(TextList(body), rest);
      BlockStep(Braces(TextList(body)) + rest, body, rest);
    case TIf(cond, thn, els) =>
      IfShape(cond, thn, els, rest);
      if els.Some? {
        var after := Text(els.value) + rest;
        BracesReadBack(thn, [FElse] + after);
        StmtReadsBack(els.value, rest);
        IfElseStep(cond, Braces(TextList(thn)) + ([FElse] + after), thn, after, els.value, rest);
      } else {
        BracesReadBack(thn, rest);
        IfStep(cond, Braces(TextList(thn)) + rest, thn, rest);
      }
    case TMatch(scrutinee, clauses) =>
      ClausesReadBack(clauses, rest);
      MatchStep(scrutinee, TextClauses(clauses) + rest, clauses, rest);
    case TWhile(cond, body) =>
      BracesReadBack(body, rest);
      WhileStep(cond, Braces(TextList(body)) + rest, body, rest);
    case TFor(init, test, post, body) =>
      BracesReadBack(body, rest);
      ForStep(init, test, post, Braces(TextList(body)) + rest, body, rest);
    case _ =>
      LeafStep(t, rest);
  }

  lemma Headed(f: Fragment, fs: seq<Fragment>, rest: seq<Fragment>)
    ensures var all := [f] + (fs + rest); [f] + fs + rest == all && all[0] == f && all[1..] == fs + rest
    ensures ([f] + rest)[0] == f && ([f] + rest)[1..] == rest
  {}

  lemma OpensWithBrace(fs: seq<Fragment>, rest: seq<Fragment>)
    ensures (Braces(fs) + rest) != [] && (Braces(fs) + rest)[0] == FOpen
  {}

  lemma {:induction false} BracesReadBack(body: seq<Target>, rest: seq<Fragment>)
    requires ListInGrammar(body)
    ensures ReadBraces(Braces(TextList(body)) + rest) == Got(body, rest)
    decreases body, 1
  {
    hide ReadList, TextList;
    var after := [FClose] + rest;
    assert after[1..] == rest;
    ListReadsBack(body, after);
    Headed(FOpen, TextList(body), after);
    assert Braces(TextList(body)) + rest == [FOpen] + (TextList(body) + after);
  }

  lemma {:induction false} ListReadsBack(ts: seq<Target>, rest: seq<Fragment>)
    requires ListInGrammar(ts)
    requires rest == [] || rest[0] == FClose
    ensures ReadList(TextList(ts) + rest) == Got(ts, rest)
    decreases ts, 0
  {
    hide ReadStmt, Text;
    if ts == [] {
      assert TextList(ts) + rest == rest;
    } else {
      var more := TextList(ts[1..]) + rest;
      ListReadsBack(ts[1..], rest);
      ListStarts(ts[1..], rest);
      StmtReadsBack(ts[0], more);
      TextStarts(ts[0], more);
      assert TextList(ts) + rest == Text(ts[0]) + more;
      assert [ts[0]] + ts[1..] == ts;
    }
  }

  lemma ListStarts(ts: seq<Target>, rest: seq<Fragment>)
    requires rest == [] || rest[0] == FClose
    ensures Ends(TextList(ts) + rest)
  {
    if ts != [] {
      TextStarts(ts[0], TextList(ts[1..]) + rest);
      assert TextList(ts) + rest == Text(ts[0]) + (TextList(ts[1..]) + rest);
    } else {
      assert TextList(ts) + rest == rest;
    }
  }

  lemma {:induction false} ClausesReadBack(cs: Clauses, rest: seq<Fragment>)
    requires ClausesInGrammar(cs)
    requires rest == [] || !rest[0].FClause?
    ensures ReadClauses(TextClauses(cs) + rest) == Got(cs, rest)
    decreases cs, 1
  {
    hide ReadBraces, Braces, TextList;
    if cs.NoClauses? {
      assert TextClauses(cs) + rest == rest;
    } else {
      MoreClausesReadBack(cs, rest);
    }
  }

  lemma {:induction false} MoreClausesReadBack(cs: Clauses, rest: seq<Fragment>)
    requires cs.Clause? && ClausesInGrammar(cs) && (rest == [] || !rest[0].FClause?)
    ensures ReadClauses(TextClauses(cs) + rest) == Got(cs, rest)
    decreases cs, 0
  {
    hide ReadBraces, ReadClauses, Braces, TextList, TextClauses;
    var more := TextClauses(cs.rest) + rest;
    ClausesReadBack(cs.rest, rest);
    BracesReadBack(cs.body, more);
    ClausesShape(cs, rest);
    ClauseStep(cs.kw, cs.pattern, Braces(TextList(cs.body)) + more, cs.body, more, cs.rest, rest);
  }

  // ----- every woven match is one that C accepts -----

  lemma {:induction false} AppendInGrammar(a: seq<Target>, b: seq<Target>)
    ensures ListInGrammar(a + b) <==> ListInGrammar(a) && ListInGrammar(b)
  {
    if a == [] {
      assert a + b == b;
    } else {
      assert (a + b)[0] == a[0] && (a + b)[1..] == a[1..] + b;
      AppendInGrammar(a[1..], b);
    }
  }

  lemma OneInGrammar(t: Target)
    ensures ListInGrammar([t]) <==> InGrammar(t)
  {
    assert [t][1..] == [];
  }

  lemma {:induction false} ArmsContinue(arms: Arms, sc: seq<Scope>)
    requires WildcardLast(arms)
    ensures Continuation(WeaveArms(arms, false, sc))
  {
    if arms.rest.Arm? {
      ArmsContinue(arms.rest, sc);
    }
  }

  lemma {:induction false} StmtInGrammar(s: Stmt, sc: seq<Scope>)
    requires WellFormed(s) && StackOk(sc)
    ensures ListInGrammar(Weave(s, sc))
    decreases Size(s) + StackSize(sc), 0, 0
  {
    hide WeaveScope, WeaveArms, WeaveAll, WeaveToLoop, Grammatical;
    match s
    case Block(body) =>
      ScopeInGrammar(body, BlockScope, sc);
      OneInGrammar(TBlock(WeaveScope(body, BlockScope, sc)));
    case If(cond, thn, els) =>
      ScopeInGrammar(thn, BlockScope, sc);
      if els.Some? {
        StmtInGrammar(els.value, sc);
        OneInGrammar(WeaveElse(els.value, sc));
      }
      OneInGrammar(Weave(s, sc)[0]);
    case Match(scrutinee, arms) =>
      ArmsInGrammar(arms, true, sc);
      ChainInGrammar(arms, sc);
      OneInGrammar(TMatch(scrutinee, WeaveArms(arms, true, sc)));
      OneInGrammar(Weave(s, sc)[0]);
    case While(_, body) =>
      ScopeInGrammar(body, LoopScope, sc);
      OneInGrammar(Weave(s, sc)[0]);
    case For(_, _, _, body) =>
      ScopeInGrammar(body, LoopScope, sc);
      OneInGrammar(Weave(s, sc)[0]);
    case Return(what) => ReturnInGrammar(what, sc);
    case Break =>
      ToLoopInGrammar(sc);
      AppendInGrammar(WeaveToLoop(sc), [TBreak]);
      OneInGrammar(TBreak);
    case Continue =>
      ToLoopInGrammar(sc);
      AppendInGrammar(WeaveToLoop(sc), [TContinue]);
      OneInGrammar(TContinue);
    case Action(a) => OneInGrammar(TAct(a));
    case Defer(_) =>
  }

  lemma ChainInGrammar(arms: Arms, sc: seq<Scope>)
    requires ArmsInOrder(arms)
    ensures Grammatical(WeaveArms(arms, true, sc))
  {
    ArmsContinue(arms.rest, sc);
  }

  lemma {:induction false} ReturnInGrammar(what: Returned, sc: seq<Scope>)
    requires StackOk(sc)
    ensures ListInGrammar(Weave(Return(what), sc))
    decreases StackSize(sc), 4, 0
  {
    hide WeaveAll;
    AllInGrammar(sc);
    match what
    case Void => ThreeInGrammar([], WeaveAll(sc), TReturnVoid);
    case Plain(e) => ThreeInGrammar([], WeaveAll(sc), TReturn(e));
    case Call(e) =>
      OneInGrammar(TSave([e]));
      ThreeInGrammar([TSave([e])], WeaveAll(sc), TReturnSaved);
    case Tuple(es) =>
      OneInGrammar(TSave(es));
      ThreeInGrammar([TSave(es)], WeaveAll(sc), TReturnSaved);
  }

  lemma ThreeInGrammar(a: seq<Target>, b: seq<Target>, t: Target)
    requires ListInGrammar(a) && ListInGrammar(b) && InGrammar(t)
    ensures ListInGrammar(a + b + [t]) && ([] + b == b)
  {
    AppendInGrammar(a, b);
    AppendInGrammar(a + b, [t]);
    OneInGrammar(t);
  }

  lemma {:induction false} ScopeInGrammar(body: seq<Stmt>, k: Kind, sc: seq<Scope>)
    requires ListOk(body) && StackOk(sc)
    ensures ListInGrammar(WeaveScope(body, k, sc))
    decreases ListSize(body) + StackSize(sc), 6, 0
  {
    EnterSize(sc, Scope(k, []));
    WovenInGrammar(body, sc + [Scope(k, [])]);
  }

  lemma {:induction false} WovenInGrammar(ss: seq<Stmt>, sc: seq<Scope>)
    requires ListOk(ss) && sc != [] && StackOk(sc)
    ensures ListInGrammar(WeaveList(ss, sc))
    decreases ListSize(ss) + StackSize(sc), 5, 0
  {
    hide Weave, WeaveCodes;
    if ss == [] {
      CodesInGrammar(Top(sc).defers);
    } else if ss[0].Defer? {
      RegisterSize(sc, ss[0].code);
      assert Size(ss[0]) == 1 + CodeSize(ss[0].code);
      WovenInGrammar(ss[1..], Register(sc, ss[0].code));
    } else {
      StmtInGrammar(ss[0], sc);
      WovenInGrammar(ss[1..], sc);
      AppendInGrammar(Weave(ss[0], sc), WeaveList(ss[1..], sc));
    }
  }

  lemma {:induction false} ArmsInGrammar(arms: Arms, first: bool, sc: seq<Scope>)
    requires ArmsOk(arms) && StackOk(sc)
    ensures ClausesInGrammar(WeaveArms(arms, first, sc))
    decreases ArmsSize(arms) + StackSize(sc), 2, 0
  {
    hide WeaveScope, Weave;
    if arms.Arm? {
      if arms.body.Block? {
        assert ArmsSize(arms) >= Size(arms.body) == 1 + ListSize(arms.body.body);
        ScopeInGrammar(arms.body.body, BlockScope, sc);
      } else {
        StmtInGrammar(arms.body, sc);
      }
      ArmsInGrammar(arms.rest, first, sc);
      ArmsInGrammar(arms.rest, false, sc);
    }
  }

  lemma {:induction false} AllInGrammar(sc: seq<Scope>)
    requires StackOk(sc)
    ensures ListInGrammar(WeaveAll(sc))
    decreases StackSize(sc), 3, |sc|
  {
    hide WeaveCodes;
    if sc != [] {
      CodesInGrammar(Top(sc).defers);
      AllInGrammar(Outer(sc));
      AppendInGrammar(WeaveCodes(Top(sc).defers), WeaveAll(Outer(sc)));
    }
  }

  lemma {:induction false} ToLoopInGrammar(sc: seq<Scope>)
    requires StackOk(sc)
    ensures ListInGrammar(WeaveToLoop(sc))
    decreases StackSize(sc), 3, |sc|
  {
    hide WeaveCodes;
    if sc != [] && !Top(sc).kind.LoopScope? {
      CodesInGrammar(Top(sc).defers);
      ToLoopInGrammar(Outer(sc));
      AppendInGrammar(WeaveCodes(Top(sc).defers), WeaveToLoop(Outer(sc)));
    }
  }

  lemma {:induction false} CodesInGrammar(p: seq<Code>)
    requires CodesOk(p)
    ensures ListInGrammar(WeaveCodes(p))
    decreases CodesSize(p), 2, 0
  {
    if p != [] {
      var c := p[|p| - 1];
      if c.Braced? {
        PlainInGrammar(c.stmts);
      }
      OneInGrammar(WeaveCode(c)[0]);
      CodesInGrammar(p[..|p| - 1]);
      AppendInGrammar(WeaveCode(c), WeaveCodes(p[..|p| - 1]));
    }
  }

  lemma {:induction false} PlainInGrammar(ss: seq<Stmt>)
    requires ListOk(ss)
    ensures ListInGrammar(WeavePlain(ss))
    decreases ListSize(ss), 5, 0
  {
    hide Weave;
    if ss != [] {
      StmtInGrammar(ss[0], []);
      PlainInGrammar(ss[1..]);
      AppendInGrammar(Weave(ss[0], []), WeavePlain(ss[1..]));
    }
  }

  /** What the emitter writes for a function body, read as C, is the woven program; every match in it is a
      chain of clauses that C accepts. */
  lemma EmittedTextIsTheProgram(body: seq<Stmt>)
    requires ListOk(body)
    ensures ReadBraces(Braces(TextList(WeaveFunction(body)))) == Got(WeaveFunction(body), [])
    ensures ListInGrammar(WeaveFunction(body))
  {
    hide ReadBraces, Braces, TextList, WeaveScope;
    var fs := Braces(TextList(WeaveFunction(body)));
    ScopeInGrammar(body, FunctionScope, []);
    BracesReadBack(WeaveFunction(body), []);
    assert fs + [] == fs;
  }
}
