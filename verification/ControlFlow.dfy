/** The control-flow checker: a visitor with two result flags and a loop flag, which stops early once a
    return, break or continue has been seen. Expressions carry no control flow, and the checker does not
    enter lambdas, so both stay abstract. */
module ControlFlow {
  import opened Options
  import opened DeferSyntax

  // ----- the first control-flow statement in the order of the visit -----

  /** `Some(loose)` for the first return, break or continue, if any; it is loose when it is a break or
      continue with no loop around it. */
  ghost function First(s: Stmt, inLoop: bool): Option<bool>
    decreases s, 1
  {
    match s
    case Action(_) => None
    case Defer(code) => FirstInCode(code, inLoop)
    case Block(body) => FirstIn(body, inLoop)
    case If(_, thn, els) =>
      var f := FirstIn(thn, inLoop);
      if f.Some? || els.None? then f else First(els.value, inLoop)
    case Match(_, arms) => FirstInArms(arms, inLoop)
    case While(_, body) => FirstIn(body, true)
    case For(_, _, _, body) => FirstIn(body, true)
    case Return(_) => Some(false)
    case Break => Some(!inLoop)
    case Continue => Some(!inLoop)
  }

  ghost function FirstIn(ss: seq<Stmt>, inLoop: bool): Option<bool>
    decreases ss, 0
  {
    if ss == [] then None
    else
      var f := First(ss[0], inLoop);
      if f.Some? then f else FirstIn(ss[1..], inLoop)
  }

  ghost function FirstInArms(arms: Arms, inLoop: bool): Option<bool>
    decreases arms, 0
  {
    if arms.NoArms? then None
    else
      var f := First(arms.body, inLoop);
      if f.Some? then f else FirstInArms(arms.rest, inLoop)
  }

  ghost function FirstInCode(c: Code, inLoop: bool): Option<bool>
    decreases c, 0
  {
    if c.Braced? then FirstIn(c.stmts, inLoop) else None
  }

  // ----- the visitor -----

  class Checker {
    var hasControlFlow: bool
    var hasBreakOrContinue: bool
    var inLoop: bool

    constructor ()
      ensures !hasControlFlow && !hasBreakOrContinue && !inLoop
    {
      hasControlFlow, hasBreakOrContinue, inLoop := false, false, false;
    }

    /** The flags after a visit that started with the given ones and whose first control-flow statement
        is `f`. */
    ghost predicate Found(f: Option<bool>, flow: bool, exit: bool, loop: bool)
      reads this
    {
      && inLoop == loop
      && hasControlFlow == (flow || f.Some?)
      && hasBreakOrContinue == (exit || (!flow && f == Some(true)))
    }

    /** check_node. */
    method CheckNode(s: Stmt)
      modifies this
      ensures Found(First(s, old(inLoop)), old(hasControlFlow), old(hasBreakOrContinue), old(inLoop))
      decreases s, 1
    {
      if !hasControlFlow {
        Visit(s);
      }
    }

    method Visit(s: Stmt)
      requires !hasControlFlow
      modifies this
      ensures Found(First(s, old(inLoop)), old(hasControlFlow), old(hasBreakOrContinue), old(inLoop))
      decreases s, 0
    {
      match s {
        case Action(_) =>
        case Defer(code) =>
          match code {
            case Single(_) =>
            case Braced(stmts) => CheckAll(stmts);
          }
        case Block(body) => CheckAll(body);
        case If(_, thn, els) =>
          CheckAll(thn);
          if hasControlFlow {
            return;
          }
          if els.Some? {
            CheckNode(els.value);
          }
        case Match(_, arms) => CheckArms(arms);
        case While(_, body) => CheckBody(body);
        case For(_, _, _, body) => CheckBody(body);
        case Return(_) => hasControlFlow := true;
        case Break =>
          hasControlFlow := true;
          if !inLoop {
            hasBreakOrContinue := true;
          }
        case Continue =>
          hasControlFlow := true;
          if !inLoop {
            hasBreakOrContinue := true;
          }
      }
    }

    method CheckBody(body: seq<Stmt>)
      requires !hasControlFlow
      modifies this
      ensures Found(FirstIn(body, true), old(hasControlFlow), old(hasBreakOrContinue), old(inLoop))
      decreases body, 2
    {
      var prevInLoop := inLoop;
      inLoop := true;
      CheckAll(body);
      inLoop := prevInLoop;
    }

    method CheckAll(ss: seq<Stmt>)
      requires !hasControlFlow
      modifies this
      ensures Found(FirstIn(ss, old(inLoop)), old(hasControlFlow), old(hasBreakOrContinue), old(inLoop))
      decreases ss, 1
    {
      var i := 0;
      assert ss[0..] == ss;
      while i < |ss|
        invariant 0 <= i <= |ss| && !hasControlFlow
        invariant inLoop == old(inLoop) && hasBreakOrContinue == old(hasBreakOrContinue)
        invariant FirstIn(ss, inLoop) == FirstIn(ss[i..], inLoop)
      {
        assert ss[i..][1..] == ss[i + 1..];
        CheckNode(ss[i]);
        if hasControlFlow {
          return;
        }
        i := i + 1;
      }
    }

    method CheckArms(arms: Arms)
      requires !hasControlFlow
      modifies this
      ensures Found(FirstInArms(arms, old(inLoop)), old(hasControlFlow), old(hasBreakOrContinue), old(inLoop))
      decreases arms, 1
    {
      var rest := arms;
      while rest.Arm?
        invariant !hasControlFlow && (rest == arms || rest < arms)
        invariant inLoop == old(inLoop) && hasBreakOrContinue == old(hasBreakOrContinue)
        invariant FirstInArms(arms, inLoop) == FirstInArms(rest, inLoop)
        decreases rest
      {
        CheckNode(rest.body);
        if hasControlFlow {
          return;
        }
        rest := rest.rest;
      }
    }
  }

  // ----- what the flags mean -----

  /** `has_control_flow` is exact, inside and outside loops. */
  lemma {:induction false} ControlFlowIsExact(s: Stmt, inLoop: bool)
    ensures First(s, inLoop).Some? <==> HasControlFlow(s)
    decreases s, 1
  {
    match s
    case Defer(code) =>
      if code.Braced? {
        ListControlFlowIsExact(code.stmts, inLoop);
      }
    case Block(body) => ListControlFlowIsExact(body, inLoop);
    case If(_, thn, els) =>
      ListControlFlowIsExact(thn, inLoop);
      if els.Some? {
        ControlFlowIsExact(els.value, inLoop);
      }
    case Match(_, arms) => ArmsControlFlowIsExact(arms, inLoop);
    case While(_, body) => ListControlFlowIsExact(body, true);
    case For(_, _, _, body) => ListControlFlowIsExact(body, true);
    case _ =>
  }

  lemma {:induction false} ListControlFlowIsExact(ss: seq<Stmt>, inLoop: bool)
    ensures FirstIn(ss, inLoop).Some? <==> ListHasControlFlow(ss)
    decreases ss, 0
  {
    if ss != [] {
      ControlFlowIsExact(ss[0], inLoop);
      ListControlFlowIsExact(ss[1..], inLoop);
    }
  }

  lemma {:induction false} ArmsControlFlowIsExact(arms: Arms, inLoop: bool)
    ensures FirstInArms(arms, inLoop).Some? <==> ArmsHaveControlFlow(arms)
    decreases arms, 0
  {
    if arms.Arm? {
      ControlFlowIsExact(arms.body, inLoop);
      ArmsControlFlowIsExact(arms.rest, inLoop);
    }
  }

  /** A break or continue occurs with no loop of this code around it. */
  predicate HasLooseExit(s: Stmt)
    decreases s, 1
  {
    match s
    case Defer(code) => code.Braced? && ListHasLooseExit(code.stmts)
    case Block(body) => ListHasLooseExit(body)
    case If(_, thn, els) => ListHasLooseExit(thn) || (els.Some? && HasLooseExit(els.value))
    case Match(_, arms) => ArmsHaveLooseExit(arms)
    case Break => true
    case Continue => true
    case _ => false
  }

  predicate ListHasLooseExit(ss: seq<Stmt>)
    decreases ss, 0
  {
    ss != [] && (HasLooseExit(ss[0]) || ListHasLooseExit(ss[1..]))
  }

  predicate ArmsHaveLooseExit(arms: Arms)
    decreases arms, 0
  {
    arms.Arm? && (HasLooseExit(arms.body) || ArmsHaveLooseExit(arms.rest))
  }

  /** `has_break_or_continue` reports no loose exit that is not there. */
  lemma {:induction false} LooseExitIsSound(s: Stmt)
    ensures First(s, false) == Some(true) ==> HasLooseExit(s)
    decreases s, 1
  {
    match s
    case Defer(code) =>
      assert First(s, false) == FirstInCode(code, false);
      if code.Braced? {
        ListLooseExitIsSound(code.stmts);
      }
    case Block(body) => ListLooseExitIsSound(body);
    case If(_, thn, els) =>
      ListLooseExitIsSound(thn);
      if els.Some? {
        LooseExitIsSound(els.value);
      }
    case Match(_, arms) => ArmsLooseExitIsSound(arms);
    case While(_, body) => NeverLooseInLoop(body);
    case For(_, _, _, body) => NeverLooseInLoop(body);
    case _ =>
  }

  lemma {:induction false} ListLooseExitIsSound(ss: seq<Stmt>)
    ensures FirstIn(ss, false) == Some(true) ==> ListHasLooseExit(ss)
    decreases ss, 0
  {
    if ss != [] {
      LooseExitIsSound(ss[0]);
      ListLooseExitIsSound(ss[1..]);
    }
  }

  lemma {:induction false} ArmsLooseExitIsSound(arms: Arms)
    ensures FirstInArms(arms, false) == Some(true) ==> ArmsHaveLooseExit(arms)
    decreases arms, 0
  {
    if arms.Arm? {
      LooseExitIsSound(arms.body);
      ArmsLooseExitIsSound(arms.rest);
    }
  }

  lemma NeverLooseInLoop(ss: seq<Stmt>)
    ensures FirstIn(ss, true) != Some(true)
    decreases ss, 0
  {
    if ss != [] {
      NeverLoose(ss[0]);
      NeverLooseInLoop(ss[1..]);
    }
  }

  lemma NeverLoose(s: Stmt)
    ensures First(s, true) != Some(true)
    decreases s, 1
  {
    match s
    case Defer(code) =>
      if code.Braced? {
        NeverLooseInLoop(code.stmts);
      }
    case Block(body) => NeverLooseInLoop(body);
    case If(_, thn, els) =>
      NeverLooseInLoop(thn);
      if els.Some? {
        NeverLoose(els.value);
      }
    case Match(_, arms) => NeverLooseInArms(arms);
    case While(_, body) => NeverLooseInLoop(body);
    case For(_, _, _, body) => NeverLooseInLoop(body);
    case _ =>
  }

  lemma NeverLooseInArms(arms: Arms)
    ensures FirstInArms(arms, true) != Some(true)
    decreases arms, 0
  {
    if arms.Arm? {
      NeverLoose(arms.body);
      NeverLooseInArms(arms.rest);
    }
  }

  /** ... but it can miss one: the visit of `{ return; break; }` ends at the return. */
  lemma LooseExitCanBeMissed()
    ensures var s := Block([Return(Void), Break]);
            HasLooseExit(s) && First(s, false) == Some(false)
  {
    assert [Return(Void), Break][1..] == [Break];
  }

  // ----- every return, break and continue in the order of the text -----

  /** For each of them whether it is loose. */
  ghost function Exits(s: Stmt, inLoop: bool): seq<bool>
    decreases s, 1
  {
    match s
    case Action(_) => []
    case Defer(code) => if code.Braced? then ExitsIn(code.stmts, inLoop) else []
    case Block(body) => ExitsIn(body, inLoop)
    case If(_, thn, els) => ExitsIn(thn, inLoop) + if els.Some? then Exits(els.value, inLoop) else []
    case Match(_, arms) => ExitsInArms(arms, inLoop)
    case While(_, body) => ExitsIn(body, true)
    case For(_, _, _, body) => ExitsIn(body, true)
    case Return(_) => [false]
    case Break => [!inLoop]
    case Continue => [!inLoop]
  }

  ghost function ExitsIn(ss: seq<Stmt>, inLoop: bool): seq<bool>
    decreases ss, 0
  {
    if ss == [] then [] else Exits(ss[0], inLoop) + ExitsIn(ss[1..], inLoop)
  }

  ghost function ExitsInArms(arms: Arms, inLoop: bool): seq<bool>
    decreases arms, 0
  {
    if arms.NoArms? then [] else Exits(arms.body, inLoop) + ExitsInArms(arms.rest, inLoop)
  }

  ghost function Head(exits: seq<bool>): Option<bool> {
    if exits == [] then None else Some(exits[0])
  }

  /** The flags come from the first of them: the exits are loose exactly where `HasLooseExit` says, and a loose exit is
      reported if and only if it comes first. */
  lemma {:induction false} FirstExitDecides(s: Stmt, inLoop: bool)
    ensures First(s, inLoop) == Head(Exits(s, inLoop))
    decreases s, 1
  {
    match s
    case Defer(code) =>
      if code.Braced? {
        FirstExitInListDecides(code.stmts, inLoop);
      }
    case Block(body) => FirstExitInListDecides(body, inLoop);
    case If(_, thn, els) =>
      FirstExitInListDecides(thn, inLoop);
      if els.Some? {
        FirstExitDecides(els.value, inLoop);
      }
    case Match(_, arms) => FirstExitInArmsDecides(arms, inLoop);
    case While(_, body) => FirstExitInListDecides(body, true);
    case For(_, _, _, body) => FirstExitInListDecides(body, true);
    case _ =>
  }

  lemma {:induction false} FirstExitInListDecides(ss: seq<Stmt>, inLoop: bool)
    ensures FirstIn(ss, inLoop) == Head(ExitsIn(ss, inLoop))
    decreases ss, 0
  {
    if ss != [] {
      FirstExitDecides(ss[0], inLoop);
      FirstExitInListDecides(ss[1..], inLoop);
    }
  }

  lemma {:induction false} FirstExitInArmsDecides(arms: Arms, inLoop: bool)
    ensures FirstInArms(arms, inLoop) == Head(ExitsInArms(arms, inLoop))
    decreases arms, 0
  {
    if arms.Arm? {
      FirstExitDecides(arms.body, inLoop);
      FirstExitInArmsDecides(arms.rest, inLoop);
    }
  }

  lemma {:induction false} LooseExitsAreListed(s: Stmt, inLoop: bool)
    ensures true in Exits(s, inLoop) <==> !inLoop && HasLooseExit(s)
    ensures Exits(s, inLoop) != [] <==> HasControlFlow(s)
    decreases s, 1
  {
    match s
    case Defer(code) =>
      if code.Braced? {
        LooseExitsInListAreListed(code.stmts, inLoop);
      }
    case Block(body) => LooseExitsInListAreListed(body, inLoop);
    case If(_, thn, els) =>
      LooseExitsInListAreListed(thn, inLoop);
      if els.Some? {
        LooseExitsAreListed(els.value, inLoop);
      }
    case Match(_, arms) => LooseExitsInArmsAreListed(arms, inLoop);
    case While(_, body) => LooseExitsInListAreListed(body, true);
    case For(_, _, _, body) => LooseExitsInListAreListed(body, true);
    case _ =>
  }

  lemma {:induction false} LooseExitsInListAreListed(ss: seq<Stmt>, inLoop: bool)
    ensures true in ExitsIn(ss, inLoop) <==> !inLoop && ListHasLooseExit(ss)
    ensures ExitsIn(ss, inLoop) != [] <==> ListHasControlFlow(ss)
    decreases ss, 0
  {
    if ss != [] {
      LooseExitsAreListed(ss[0], inLoop);
      LooseExitsInListAreListed(ss[1..], inLoop);
    }
  }

  lemma {:induction false} LooseExitsInArmsAreListed(arms: Arms, inLoop: bool)
    ensures true in ExitsInArms(arms, inLoop) <==> !inLoop && ArmsHaveLooseExit(arms)
    ensures ExitsInArms(arms, inLoop) != [] <==> ArmsHaveControlFlow(arms)
    decreases arms, 0
  {
    if arms.Arm? {
      LooseExitsAreListed(arms.body, inLoop);
      LooseExitsInArmsAreListed(arms.rest, inLoop);
    }
  }

  /** A loose exit is reported if and only if one is there and nothing that is not loose comes before it. */
  lemma LooseExitIsReported(s: Stmt)
    ensures First(s, false) == Some(true) <==> HasLooseExit(s) && Exits(s, false) != [] && Exits(s, false)[0]
    ensures HasLooseExit(s) && (forall b :: b in Exits(s, false) ==> b) ==> First(s, false) == Some(true)
  {
    FirstExitDecides(s, false);
    LooseExitsAreListed(s, false);
    assert Exits(s, false) != [] ==> Exits(s, false)[0] in Exits(s, false);
  }

  /** The test made on deferred code (check_no_control_flow). */
  method NoControlFlow(s: Stmt) returns (ok: bool)
    ensures ok <==> !HasControlFlow(s)
  {
    var checker := new Checker();
    checker.Visit(s);
    ControlFlowIsExact(s, false);
    ok := !checker.hasControlFlow;
  }
}
