/** Calls inside expressions, answered by the program itself: at each depth of nesting by what the
    functions return with calls nested less deep. */
module PureCalls {
  import opened Cfg
  import opened CfgRun
  import opened Calls

  // ---------------------------------------------------------------- a world that answers more

  type Answering = imap<(FuncId, seq<Val>), Val>

  ghost predicate Below(few: Answering, more: Answering) {
    forall key :: key in few ==> key in more && more[key] == few[key]
  }

  ghost predicate AnswersAll(w: World, u: World) { u.(pure := w.pure) == w && Below(w.pure, u.pure) }

  /** `u` answers what `w` does, and perhaps more calls. Folded away as `Ends` is. */
  ghost predicate Answers(w: World, u: World) { !AnswersOtherwise(w, u) }

  /** Some call is answered differently, or no longer. */
  ghost predicate AnswersOtherwise(w: World, u: World) {
    exists k: nat {:trigger Folded((w, u), k)} :: Folded((w, u), k) && !AnswersAll(w, u)
  }

  lemma Unfold(w: World, u: World)
    requires Answers(w, u)
    ensures AnswersAll(w, u)
  {
    assert Folded((w, u), 0);
  }

  lemma AnswersItself(w: World)
    ensures Answers(w, w)
  {}

  lemma AnswersOn(w: World, u: World, v: World)
    requires Answers(w, u) && Answers(u, v)
    ensures Answers(w, v)
  {
    Unfold(w, u);
    Unfold(u, v);
  }

  lemma {:induction false} ValueKept(w: World, u: World, e: Expr, store: Store)
    requires Answers(w, u) && ExprAnswered(w, e, store)
    ensures ExprAnswered(u, e, store) && ValueOf(u, e, store) == ValueOf(w, e, store)
    decreases e
  {
    Unfold(w, u);
    match e
    case Value(_) =>
    case Literal(_) =>
    case Unary(_, operand) => ValueKept(w, u, operand, store);
    case Binary(_, lhs, rhs) => ValueKept(w, u, lhs, store); ValueKept(w, u, rhs, store);
    case Prim(_, args) => ValuesKept(w, u, args, store);
    case PureCall(_, args) => ValuesKept(w, u, args, store);
  }

  lemma {:induction false} ValuesKept(w: World, u: World, es: seq<Expr>, store: Store)
    requires Answers(w, u) && AllAnswered(w, es, store)
    ensures AllAnswered(u, es, store) && ValuesOf(u, es, store) == ValuesOf(w, es, store)
    decreases es
  {
    forall i | 0 <= i < |es|
      ensures ExprAnswered(u, es[i], store) && ValueOf(u, es[i], store) == ValueOf(w, es[i], store)
    {
      ValueKept(w, u, es[i], store);
    }
  }

  lemma {:induction false} InstrsKept(w: World, u: World, instrs: seq<Instr>, s: State)
    requires Answers(w, u) && InstrsAnswered(w, instrs, s)
    ensures InstrsAnswered(u, instrs, s) && RunInstrs(u, instrs, s) == RunInstrs(w, instrs, s)
    decreases instrs
  {
    if instrs != [] {
      var before := instrs[..|instrs| - 1];
      InstrsKept(w, u, before, s);
      match instrs[|instrs| - 1]
      case Let(_, value) => ValueKept(w, u, value, RunInstrs(w, before, s).store);
      case Eval(_, value) => ValueKept(w, u, value, RunInstrs(w, before, s).store);
      case _ =>
    }
  }

  /** A block that gets past its calls does the same. */
  lemma BlockKept(p: Program, w: World, u: World, b: BlockId, s: State)
    requires Answers(w, u) && !Stuck(p, w, b, s)
    ensures !Stuck(p, u, b, s) && Ran(p, u, b, s) == Ran(p, w, b, s)
    ensures ValuesOf(u, p.blocks[b].term.Operands(), Ran(p, w, b, s).store)
      == ValuesOf(w, p.blocks[b].term.Operands(), Ran(p, w, b, s).store)
  {
    BlockAnsweredIs(w, p.blocks[b], s);
    BlockAnsweredIs(u, p.blocks[b], s);
    InstrsKept(w, u, p.blocks[b].instrs, s);
    ValuesKept(w, u, p.blocks[b].term.Operands(), Ran(p, w, b, s).store);
  }

  lemma GoingKept(p: Program, w: World, u: World, b: BlockId, s: State)
    requires Answers(w, u) && !Stuck(p, w, b, s) && !Calling(p, b)
    ensures Going(p, u, b, s) == Going(p, w, b, s)
  {
    Unfold(w, u);
    BlockKept(p, w, u, b, s);
    var operands, store := p.blocks[b].term.Operands(), Ran(p, w, b, s).store;
    forall i | 0 <= i < |operands| ensures ValueOf(u, operands[i], store) == ValueOf(w, operands[i], store) {
      assert ValuesOf(u, operands, store)[i] == ValuesOf(w, operands, store)[i];
    }
    match p.blocks[b].term
    case Return(value) => assert operands[0] == value;
    case Branch(cond, _, _) => assert operands[0] == cond;
    case Match(scrutinee, _, _) => assert operands[0] == scrutinee;
    case Switch(selector, _, _) => assert operands[0] == selector;
    case _ =>
  }

  lemma CallKept(p: Program, w: World, u: World, b: BlockId, s: State, v: Outcome)
    requires Answers(w, u) && !Stuck(p, w, b, s) && Calling(p, b)
    ensures ArgsAt(p, u, b, s) == ArgsAt(p, w, b, s) && Received(p, u, b, s, v) == Received(p, w, b, s, v)
  {
    BlockKept(p, w, u, b, s);
    assert SiteAt(p, b).args == p.blocks[b].term.Operands();
  }

  lemma {:induction false} EndKept(p: Program, w: World, u: World, n: nat, b: BlockId, s: State, o: Outcome)
    requires Answers(w, u) && Ends(p, w, n, b, s, o)
    ensures Ends(p, u, n, b, s, o)
    decreases n, 0
  {
    GetsOn(p, w, n, b, s, o);
    BlockKept(p, w, u, b, s);
    if Calling(p, b) {
      var v := CallCameBack(p, w, n, b, s, o);
      CallKept(p, w, u, b, s, v);
      GiveKept(p, w, u, n - 1, SiteAt(p, b).callee, ArgsAt(p, w, b, s), Ran(p, w, b, s).trace, v);
      EndKept(p, w, u, n - 1, SiteAt(p, b).target, Received(p, w, b, s, v), o);
      CallEnds(p, u, n, b, s, v, o);
    } else {
      GoingKept(p, w, u, b, s);
      StepEnds(p, w, n, b, s, o);
      var e := Going(p, w, b, s);
      if e.To? { EndKept(p, w, u, n - 1, e.target, e.state, o); }
      StepEnds(p, u, n, b, s, o);
    }
  }

  lemma {:induction false} GiveKept(p: Program, w: World, u: World, n: nat, f: FuncId, args: seq<Val>, t: Trace,
      o: Outcome)
    requires Answers(w, u) && Gives(p, w, n, f, args, t, o)
    ensures Gives(p, u, n, f, args, t, o)
    decreases n, 1
  {
    EndKept(p, w, u, n, p.functions[f].entry, State(Frame(p.functions[f], args), t), o);
  }

  lemma ReturnKept(p: Program, w: World, u: World, f: FuncId, args: seq<Val>, t: Trace, o: Outcome)
    requires Answers(w, u) && Returns(p, w, f, args, t, o)
    ensures Returns(p, u, f, args, t, o)
  {
    var n: nat :| Gives(p, w, n, f, args, t, o);
    EndKept(p, w, u, n, p.functions[f].entry, State(Frame(p.functions[f], args), t), o);
    assert Gives(p, u, n, f, args, t, o);
  }

  lemma OneReturn(p: Program, w: World, f: FuncId, args: seq<Val>, t: Trace, o: Outcome, v: Outcome)
    requires Returns(p, w, f, args, t, o) && Returns(p, w, f, args, t, v)
    ensures o == v
  {
    var n: nat :| Gives(p, w, n, f, args, t, o);
    var m: nat :| Gives(p, w, m, f, args, t, v);
    OneEnd(p, w, n, m, p.functions[f].entry, State(Frame(p.functions[f], args), t), o, v);
  }

  // ---------------------------------------------------------------- the program's own answers

  /** A call inside an expression shows the world nothing, so it starts from no trace. */
  ghost predicate Answered(p: Program, w: World, f: FuncId, args: seq<Val>) {
    exists o :: Returns(p, w, f, args, [], o)
  }

  ghost function AnswerOf(p: Program, w: World, f: FuncId, args: seq<Val>): Val
    requires Answered(p, w, f, args)
  {
    var o :| Returns(p, w, f, args, [], o);
    o.value
  }

  /** What calls of the first `limit` functions return. */
  ghost function Table(p: Program, w: World, limit: nat): Answering {
    imap key: (FuncId, seq<Val>) | key.0 < limit && Answered(p, w, key.0, key.1) :: AnswerOf(p, w, key.0, key.1)
  }

  /** `w` with its calls answered by `step` of the world before, `k` times over, from no answer at all. */
  ghost function Iterate(step: World -> Answering, w: World, k: nat): World
    decreases k
  {
    w.(pure := if k == 0 then imap[] else step(Iterate(step, w, k - 1)))
  }

  ghost function Answerer(p: Program, limit: nat): World -> Answering { u => Table(p, u, limit) }

  /** The world in which calls inside expressions, of the first `limit` functions, are run by `p`
      itself and nest at most `k` deep. */
  ghost function Nested(p: Program, w: World, limit: nat, k: nat): World { Iterate(Answerer(p, limit), w, k) }

  /** Called so, with the calls inside its expressions run by the program too, the function returns this. */
  ghost predicate ReturnsWithin(p: Program, w: World, limit: nat, f: FuncId, args: seq<Val>, t: Trace, o: Outcome) {
    exists k: nat :: Returns(p, Nested(p, w, limit, k), f, args, t, o)
  }

  /** A world that answers more calls answers the calls of functions that make them. */
  lemma TableKept(p: Program, w: World, u: World, limit: nat)
    requires Answers(w, u)
    ensures Below(Table(p, w, limit), Table(p, u, limit))
  {
    forall key | key in Table(p, w, limit)
      ensures key in Table(p, u, limit) && Table(p, u, limit)[key] == Table(p, w, limit)[key]
    {
      var o :| Returns(p, w, key.0, key.1, [], o) && o.value == AnswerOf(p, w, key.0, key.1);
      ReturnKept(p, w, u, key.0, key.1, [], o);
      var v :| Returns(p, u, key.0, key.1, [], v) && v.value == AnswerOf(p, u, key.0, key.1);
      OneReturn(p, u, key.0, key.1, [], o, v);
    }
  }

  ghost predicate Rising(step: World -> Answering) {
    forall w, u {:trigger Below(step(w), step(u))} :: Answers(w, u) ==> Below(step(w), step(u))
  }

  lemma AnswererRises(p: Program, limit: nat)
    ensures Rising(Answerer(p, limit))
  {
    forall w, u | Answers(w, u)
      ensures Below(Answerer(p, limit)(w), Answerer(p, limit)(u))
    {
      TableKept(p, w, u, limit);
    }
  }

  /** Letting calls nest deeper answers what was answered before, and in the same way. */
  lemma {:induction false} DeeperAnswers(step: World -> Answering, w: World, k: nat)
    requires Rising(step)
    ensures Answers(Iterate(step, w, k), Iterate(step, w, k + 1))
    decreases k
  {
    if k > 0 {
      DeeperAnswers(step, w, k - 1);
      assert Below(step(Iterate(step, w, k - 1)), step(Iterate(step, w, k)));
    }
  }

  lemma {:induction false} MuchDeeper(step: World -> Answering, w: World, k: nat, m: nat)
    requires Rising(step) && k <= m
    ensures Answers(Iterate(step, w, k), Iterate(step, w, m))
    decreases m
  {
    if k == m {
      AnswersItself(Iterate(step, w, k));
    } else {
      var some, most := Iterate(step, w, m - 1), Iterate(step, w, m);
      MuchDeeper(step, w, k, m - 1);
      DeeperAnswers(step, w, m - 1);
      AnswersOn(Iterate(step, w, k), some, most);
    }
  }

  /** A function returns one thing, however deep its calls are let nest. */
  lemma ReturnsOnce(p: Program, w: World, limit: nat, f: FuncId, args: seq<Val>, t: Trace, o: Outcome, v: Outcome)
    requires ReturnsWithin(p, w, limit, f, args, t, o) && ReturnsWithin(p, w, limit, f, args, t, v)
    ensures o == v
  {
    var k: nat :| Returns(p, Nested(p, w, limit, k), f, args, t, o);
    var m: nat :| Returns(p, Nested(p, w, limit, m), f, args, t, v);
    var most := if k <= m then m else k;
    AnswererRises(p, limit);
    MuchDeeper(Answerer(p, limit), w, k, most);
    MuchDeeper(Answerer(p, limit), w, m, most);
    ReturnKept(p, Nested(p, w, limit, k), Nested(p, w, limit, most), f, args, t, o);
    ReturnKept(p, Nested(p, w, limit, m), Nested(p, w, limit, most), f, args, t, v);
    OneReturn(p, Nested(p, w, limit, most), f, args, t, o, v);
  }

  // ---------------------------------------------------------------- programs that answer alike

  /** The functions of the first program are functions of the second, and return the same, whatever
      answers the calls inside expressions. */
  ghost predicate Equivalent(p: Program, q: Program) {
    |p.functions| <= |q.functions| &&
    forall w: World, f: FuncId, args: seq<Val>, t: Trace, o: Outcome {:trigger Returns(q, w, f, args, t, o)} ::
      f < |p.functions| ==> (Returns(p, w, f, args, t, o) <==> Returns(q, w, f, args, t, o))
  }

  lemma TableAlike(p: Program, q: Program, w: World, limit: nat)
    requires Equivalent(p, q) && limit == |p.functions|
    ensures Table(p, w, limit) == Table(q, w, limit)
  {
    forall f: FuncId, args: seq<Val> | f < |p.functions| ensures Answered(p, w, f, args) == Answered(q, w, f, args) {
      if o :| Returns(p, w, f, args, [], o) { assert Returns(q, w, f, args, [], o); }
    }
    forall f: FuncId, args: seq<Val> | f < |p.functions| && Answered(p, w, f, args)
      ensures AnswerOf(p, w, f, args) == AnswerOf(q, w, f, args)
    {
      var o :| Returns(p, w, f, args, [], o) && o.value == AnswerOf(p, w, f, args);
      var v :| Returns(q, w, f, args, [], v) && v.value == AnswerOf(q, w, f, args);
      OneReturn(q, w, f, args, [], o, v);
    }
  }

  lemma {:induction false} IterateAlike(one: World -> Answering, other: World -> Answering, w: World, k: nat)
    requires forall u {:trigger one(u)} :: one(u) == other(u)
    ensures Iterate(one, w, k) == Iterate(other, w, k)
    decreases k
  {
    if k > 0 { IterateAlike(one, other, w, k - 1); }
  }

  lemma NestedAlike(p: Program, q: Program, w: World, limit: nat, k: nat)
    requires Equivalent(p, q) && limit == |p.functions|
    ensures Nested(p, w, limit, k) == Nested(q, w, limit, k)
  {
    forall u ensures Answerer(p, limit)(u) == Answerer(q, limit)(u) { TableAlike(p, q, u, limit); }
    IterateAlike(Answerer(p, limit), Answerer(q, limit), w, k);
  }

  /** So they return the same when each runs the calls inside its expressions itself. */
  lemma EquivalentWithin(p: Program, q: Program, w: World, f: FuncId, args: seq<Val>, t: Trace, o: Outcome)
    requires Equivalent(p, q) && f < |p.functions|
    ensures ReturnsWithin(p, w, |p.functions|, f, args, t, o) <==> ReturnsWithin(q, w, |p.functions|, f, args, t, o)
  {
    forall k: nat
      ensures Returns(p, Nested(p, w, |p.functions|, k), f, args, t, o) <==>
        Returns(q, Nested(q, w, |p.functions|, k), f, args, t, o)
    {
      NestedAlike(p, q, w, |p.functions|, k);
      assert Returns(p, Nested(p, w, |p.functions|, k), f, args, t, o) <==>
        Returns(q, Nested(p, w, |p.functions|, k), f, args, t, o);
    }
  }
}
