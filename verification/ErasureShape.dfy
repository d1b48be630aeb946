/** The form of an erased graph: without a shared continuation it has no dispatch in it, and it reads
    only what the handled code and its handler do. */
module ErasureShape {
  import Cfg
  import opened Core
  import opened ClauseAnalysis
  import opened Linear
  import opened Erasure
  import opened ErasureMeaning

  /** No clause is left to a shared continuation. */
  predicate Spliced(ps: seq<Policy>) { forall p :: p in ps ==> p != Defunctionalise }

  /** Every `resume` has its clause around it, and is the only one on its path. */
  predicate Placed(s: Stmt, context: Option<Context>) {
    ResumesOnly(s, Cfg.None) ||
    (context.Some? && ResumesOnly(s, Cfg.Some(context.value.resume)) && Uses(s, context.value.resume).max != Many)
  }

  predicate Ready(h: Handler, s: Stmt, context: Option<Context>) {
    Placed(s, context) && Discharged(h, s) && (Performs(s, h.effect) ==> ResumesOnly(s, Cfg.None))
  }

  predicate ContextReady(h: Handler, c: Option<Context>)
    decreases c
  {
    match c
    case None => true
    case Some(c) =>
      c.resumption.None? && Ready(h, c.continuation, c.outer) && ContextReady(h, c.outer) && AnswerReady(h, c.answer)
  }

  predicate AnswerReady(h: Handler, a: Answer)
    decreases a
  {
    match a
    case Bind(_, next, context, outer) => Ready(h, next, context) && ContextReady(h, context) && AnswerReady(h, outer)
    case _ => true
  }

  /** What splicing the context's continuation brings in from where the perform stands. */
  function ContextReads(h: Handler, c: Option<Context>): set<VarId>
    decreases c
  {
    match c
    case None => {}
    case Some(c) =>
      (Free(c.continuation) - OptionSet(c.performed)) + ContextReads(h, c.outer) + AnswerReads(h, c.answer)
  }

  function AnswerReads(h: Handler, a: Answer): set<VarId>
    decreases a
  {
    match a
    case Bind(b, next, context, outer) => (Free(next) - {b}) + ContextReads(h, context) + AnswerReads(h, outer)
    case _ => {}
  }

  ghost predicate Shaped(h: Handler, g: Graph, vars: set<VarId>) {
    Dispatchless(g) && GraphReads(g) <= vars + HomeReads(h)
  }

  lemma {:induction false} PlainShaped(h: Handler, s: Stmt)
    requires ResumesOnly(s, Cfg.None)
    ensures Dispatchless(Plain(s)) && GraphReads(Plain(s)) <= Free(s)
  {
    match s
    case Return(_) =>
    case Let(_, _, next) => PlainShaped(h, next);
    case Val(_, graph, next) => PlainShaped(h, graph); PlainShaped(h, next);
    case Call(_, _, _, next) => PlainShaped(h, next);
    case If(_, x, y) => PlainShaped(h, x); PlainShaped(h, y);
    case Perform(_, _, _, _, next) => PlainShaped(h, next);
    case Resume(_, _, _, _) => assert false;
    case Match(_, cases, default) =>
      var g := Plain(s);
      forall i | 0 <= i < |cases|
        ensures Dispatchless(g.arms[i].body) && GraphReads(g.arms[i].body) <= Free(cases[i].body)
      {
        PlainShaped(h, cases[i].body);
      }
      ArmsShaped(s, g.arms, |cases|, Free(s));
      if default.Some? { PlainShaped(h, default.value); }
  }

  lemma CaseReads(s: Stmt, i: nat)
    requires s.Match? && i < |s.cases|
    ensures Free(s.cases[i].body) - Names(s.cases[i].binders) <= Free(s)
  {
    forall x | x in Free(s.cases[i].body) - Names(s.cases[i].binders) ensures x in Free(s) {
      assert 0 <= i < |s.cases| && x in Free(s.cases[i].body) - Names(s.cases[i].binders);
    }
  }

  /** Arms that read no more than their cases do, and `vars`. */
  lemma {:induction false} ArmsShaped(s: Stmt, arms: seq<Arm>, n: nat, vars: set<VarId>)
    requires s.Match? && n <= |arms| <= |s.cases| && Free(s) <= vars
    requires forall i :: 0 <= i < |arms| ==>
      arms[i].binders == s.cases[i].binders && GraphReads(arms[i].body) <= Free(s.cases[i].body) + vars
    ensures ArmsRead(arms, n) <= vars
    decreases n
  {
    if n > 0 {
      ArmsShaped(s, arms, n - 1, vars);
      CaseReads(s, n - 1);
    }
  }

  lemma {:induction false} ParamsShaped(h: Handler, params: seq<VarId>, args: seq<Expr>, n: nat, g: Graph,
      vars: set<VarId>)
    requires n <= |params| && n <= |args| && Dispatchless(g) && ReadsOfAll(args) <= vars
    requires GraphReads(g) <= vars + Names(params[..n])
    ensures Dispatchless(BindParams(params, args, n, g)) && GraphReads(BindParams(params, args, n, g)) <= vars
    decreases n
  {
    if n > 0 {
      assert params[..n] == params[..n - 1] + [params[n - 1]];
      assert Reads(args[n - 1]) <= ReadsOfAll(args);
      ParamsShaped(h, params, args, n - 1, Graph.Let(params[n - 1], args[n - 1], g), vars);
    }
  }

  lemma {:induction false} QuietIsDischarged(h: Handler, s: Stmt)
    requires !Performs(s, h.effect)
    ensures Discharged(h, s)
  {
    match s
    case Return(_) =>
    case Let(_, _, next) => QuietIsDischarged(h, next);
    case Val(_, graph, next) => QuietIsDischarged(h, graph); QuietIsDischarged(h, next);
    case Call(_, _, _, next) => QuietIsDischarged(h, next);
    case If(_, x, y) => QuietIsDischarged(h, x); QuietIsDischarged(h, y);
    case Perform(_, _, _, _, next) => QuietIsDischarged(h, next);
    case Resume(_, _, _, next) => QuietIsDischarged(h, next);
    case Match(_, _, _) => forall b | b in Branches(s) ensures Discharged(h, b) { QuietIsDischarged(h, b); }
  }

  ghost predicate Erased(h: Handler, ps: seq<Policy>, s: Stmt, context: Option<Context>, answer: Answer, st: State)
    requires Answerable(h) && |ps| == |h.clauses|
  {
    Shaped(h, Lower(h, ps, s, context, answer, st).0, Free(s) + ContextReads(h, context) + AnswerReads(h, answer))
  }

  /** Not what is asked of a lowering: strategies that splice, and code that is all in its place. */
  ghost predicate Astray(h: Handler, ps: seq<Policy>, s: Stmt, context: Option<Context>, answer: Answer) {
    !(Erasable(h, ps) && Spliced(ps) && Ready(h, s, context) && ContextReady(h, context) && AnswerReady(h, answer))
  }

  lemma {:induction false} LowerShaped(h: Handler, ps: seq<Policy>, s: Stmt, context: Option<Context>, answer: Answer,
      st: State)
    requires !Astray(h, ps, s, context, answer)
    ensures Erased(h, ps, s, context, answer, st)
    decreases StmtCost(h, s, ContextCost(h, context), AnswerCost(h, answer)), 1
  {
    match s
    case Return(_) =>
      if answer.HandlerReturn? {
        PlainShaped(h, h.returnBody);
      } else if answer.Bind? {
        LowerShaped(h, ps, answer.next, answer.context, answer.outer, st);
      }
    case Let(_, _, next) => LowerShaped(h, ps, next, context, answer, st);
    case Val(_, _, _) => ValShaped(h, ps, s, context, answer, st);
    case Call(_, _, _, _) => EventShaped(h, ps, s, context, answer, st);
    case If(_, _, _) => IfShaped(h, ps, s, context, answer, st);
    case Perform(_, effect, _, _, next) =>
      if effect == h.effect {
        PerformShaped(h, ps, s, context, answer, st);
      } else {
        EventShaped(h, ps, s, context, answer, st);
      }
    case Resume(_, _, _, _) => ResumeShaped(h, ps, s, context, answer, st);
    case Match(_, _, _) => MatchShaped(h, ps, s, context, answer, st);
  }

  lemma {:induction false} EventShaped(h: Handler, ps: seq<Policy>, s: Stmt, context: Option<Context>, answer: Answer,
      st: State)
    requires !Astray(h, ps, s, context, answer) && (s.Call? || (s.Perform? && s.effect != h.effect))
    ensures Erased(h, ps, s, context, answer, st)
    decreases StmtCost(h, s, ContextCost(h, context), AnswerCost(h, answer)), 0
  {
    WithinStays(h, ps, s, s.next, context, answer);
    LowerShaped(h, ps, s.next, context, answer, st);
    EventLowersTo(h, ps, s, context, answer, st);
  }

  lemma EventLowersTo(h: Handler, ps: seq<Policy>, s: Stmt, context: Option<Context>, answer: Answer, st: State)
    requires Answerable(h) && |ps| == |h.clauses| && (s.Call? || (s.Perform? && s.effect != h.effect))
    ensures var (g, rest) := (Lower(h, ps, s, context, answer, st).0, Lower(h, ps, s.next, context, answer, st).0);
      && Dispatchless(g) == Dispatchless(rest)
      && GraphReads(g) == ReadsOfAll(s.args)
        + (GraphReads(rest) - if s.Call? then {s.result} else OptionSet(s.answer))
  {}

  /** Code that goes on in the same place. */
  lemma WithinStays(h: Handler, ps: seq<Policy>, s: Stmt, b: Stmt, context: Option<Context>, answer: Answer)
    requires !Astray(h, ps, s, context, answer)
    requires ((s.Call? || (s.Perform? && s.effect != h.effect)) && b == s.next)
      || (s.If? && (b == s.thenBranch || b == s.elseBranch)) || (s.Val? && b == s.next)
    ensures !Astray(h, ps, b, context, answer)
  {}

  lemma {:induction false} IfShaped(h: Handler, ps: seq<Policy>, s: Stmt, context: Option<Context>, answer: Answer,
      st: State)
    requires !Astray(h, ps, s, context, answer) && s.If?
    ensures Erased(h, ps, s, context, answer, st)
    decreases StmtCost(h, s, ContextCost(h, context), AnswerCost(h, answer)), 0
  {
    WithinStays(h, ps, s, s.thenBranch, context, answer);
    WithinStays(h, ps, s, s.elseBranch, context, answer);
    LowerShaped(h, ps, s.thenBranch, context, answer, st);
    LowerShaped(h, ps, s.elseBranch, context, answer, Lower(h, ps, s.thenBranch, context, answer, st).1);
    IfLowersTo(h, ps, s, context, answer, st);
  }

  lemma IfLowersTo(h: Handler, ps: seq<Policy>, s: Stmt, context: Option<Context>, answer: Answer, st: State)
    requires Answerable(h) && |ps| == |h.clauses| && s.If?
    ensures var (x, st1) := Lower(h, ps, s.thenBranch, context, answer, st);
      var g, y := Lower(h, ps, s, context, answer, st).0, Lower(h, ps, s.elseBranch, context, answer, st1).0;
      && Dispatchless(g) == (Dispatchless(x) && Dispatchless(y))
      && GraphReads(g) == Reads(s.cond) + GraphReads(x) + GraphReads(y)
  {}

  lemma {:induction false} ValShaped(h: Handler, ps: seq<Policy>, s: Stmt, context: Option<Context>, answer: Answer,
      st: State)
    requires !Astray(h, ps, s, context, answer) && s.Val?
    ensures Erased(h, ps, s, context, answer, st)
    decreases StmtCost(h, s, ContextCost(h, context), AnswerCost(h, answer)), 0
  {
    var Val(b, graph, next) := s;
    if Splices(h, graph, context) {
      GraphStays(h, ps, s, context, answer, Bind(b, next, context, answer));
      LowerShaped(h, ps, graph, context, Bind(b, next, context, answer), st);
    } else {
      GraphStays(h, ps, s, context, answer, Yield);
      WithinStays(h, ps, s, next, context, answer);
      LowerShaped(h, ps, graph, context, Yield, st);
      LowerShaped(h, ps, next, context, answer, Lower(h, ps, graph, context, Yield, st).1);
    }
  }

  lemma GraphStays(h: Handler, ps: seq<Policy>, s: Stmt, context: Option<Context>, answer: Answer, inner: Answer)
    requires !Astray(h, ps, s, context, answer) && s.Val?
    requires inner == Yield || inner == Bind(s.binding, s.next, context, answer)
    ensures !Astray(h, ps, s.graph, context, inner)
  {}

  lemma {:induction false} MatchShaped(h: Handler, ps: seq<Policy>, s: Stmt, context: Option<Context>, answer: Answer,
      st: State)
    requires !Astray(h, ps, s, context, answer) && s.Match?
    ensures Erased(h, ps, s, context, answer, st)
    decreases StmtCost(h, s, ContextCost(h, context), AnswerCost(h, answer)), 0
  {
    var vars := Around(h, s, context, answer);
    var (arms, st1) := LowerCases(h, ps, s, |s.cases|, context, answer, st);
    CasesShaped(h, ps, s, context, answer, st, arms, vars);
    if s.default.Some? { DefaultShaped(h, ps, s, context, answer, st1); }
    MatchLowersTo(h, ps, s, context, answer, st);
    MatchGraphShaped(h, Lower(h, ps, s, context, answer, st).0, Around(h, s, context, answer));
  }

  /** A match is lowered case by case. */
  lemma MatchLowersTo(h: Handler, ps: seq<Policy>, s: Stmt, context: Option<Context>, answer: Answer, st: State)
    requires Answerable(h) && |ps| == |h.clauses| && s.Match?
    ensures var (arms, st1) := LowerCases(h, ps, s, |s.cases|, context, answer, st);
      Lower(h, ps, s, context, answer, st).0 == Graph.Match(s.scrutinee, arms,
        if s.default.None? then Cfg.None else Cfg.Some(Lower(h, ps, s.default.value, context, answer, st1).0))
  {}

  lemma MatchGraphShaped(h: Handler, g: Graph, vars: set<VarId>)
    requires g.Match? && Reads(g.scrutinee) <= vars && HomeReads(h) <= vars
    requires (forall i :: 0 <= i < |g.arms| ==> Dispatchless(g.arms[i].body)) && ArmsRead(g.arms, |g.arms|) <= vars
    requires g.default.Some? ==> Dispatchless(g.default.value) && GraphReads(g.default.value) <= vars
    ensures Dispatchless(g) && GraphReads(g) <= vars
  {}

  lemma {:induction false} CasesShaped(h: Handler, ps: seq<Policy>, s: Stmt, context: Option<Context>, answer: Answer,
      st: State, arms: seq<Arm>, vars: set<VarId>)
    requires !Astray(h, ps, s, context, answer) && s.Match? && vars == Around(h, s, context, answer)
    requires arms == LowerCases(h, ps, s, |s.cases|, context, answer, st).0
    ensures (forall i :: 0 <= i < |arms| ==> Dispatchless(arms[i].body)) && ArmsRead(arms, |arms|) <= vars
    decreases StmtCost(h, s, ContextCost(h, context), AnswerCost(h, answer)), 0, 1
  {
    forall i | 0 <= i < |arms|
      ensures arms[i].binders == s.cases[i].binders && Dispatchless(arms[i].body)
        && GraphReads(arms[i].body) <= Free(s.cases[i].body) + vars
    {
      CaseShaped(h, ps, s, i, context, answer, st, arms, vars);
    }
    ArmsShaped(s, arms, |arms|, vars);
  }

  /** All that a lowering may read. */
  function Around(h: Handler, s: Stmt, context: Option<Context>, answer: Answer): set<VarId> {
    Free(s) + ContextReads(h, context) + AnswerReads(h, answer) + HomeReads(h)
  }

  lemma {:induction false} CaseShaped(h: Handler, ps: seq<Policy>, s: Stmt, i: nat, context: Option<Context>,
      answer: Answer, st: State, arms: seq<Arm>, vars: set<VarId>)
    requires !Astray(h, ps, s, context, answer) && s.Match? && i < |s.cases| && vars == Around(h, s, context, answer)
    requires arms == LowerCases(h, ps, s, |s.cases|, context, answer, st).0
    ensures arms[i].binders == s.cases[i].binders && Dispatchless(arms[i].body)
      && GraphReads(arms[i].body) <= Free(s.cases[i].body) + vars
    decreases StmtCost(h, s, ContextCost(h, context), AnswerCost(h, answer)), 0, 0
  {
    var later := CaseLowered(h, ps, s, |s.cases|, i, context, answer, st);
    CaseCosts(h, s, i, ContextCost(h, context), AnswerCost(h, answer));
    BranchStays(h, ps, s, s.cases[i].body, context, answer);
    LowerShaped(h, ps, s.cases[i].body, context, answer, later);
  }

  lemma {:induction false} DefaultShaped(h: Handler, ps: seq<Policy>, s: Stmt, context: Option<Context>,
      answer: Answer, st: State)
    requires !Astray(h, ps, s, context, answer) && s.Match? && s.default.Some?
    ensures Erased(h, ps, s.default.value, context, answer, st)
    decreases StmtCost(h, s, ContextCost(h, context), AnswerCost(h, answer)), 0, 0
  {
    BranchStays(h, ps, s, s.default.value, context, answer);
    LowerShaped(h, ps, s.default.value, context, answer, st);
  }

  lemma BranchStays(h: Handler, ps: seq<Policy>, s: Stmt, b: Stmt, context: Option<Context>, answer: Answer)
    requires !Astray(h, ps, s, context, answer) && s.Match? && b in Branches(s)
    ensures !Astray(h, ps, b, context, answer)
  {
    if !ResumesOnly(s, Cfg.None) { BranchUses(s, context.value.resume, b); }
  }

  lemma {:induction false} ResumeShaped(h: Handler, ps: seq<Policy>, s: Stmt, context: Option<Context>,
      answer: Answer, st: State)
    requires !Astray(h, ps, s, context, answer) && s.Resume?
    ensures Erased(h, ps, s, context, answer, st)
    decreases StmtCost(h, s, ContextCost(h, context), AnswerCost(h, answer)), 0
  {
    var c := context.value;
    if c.policy != Join {
      ResumeStays(h, ps, s, context, answer);
      LowerShaped(h, ps, c.continuation, c.outer, c.answer, st);
      var st1 := Lower(h, ps, c.continuation, c.outer, c.answer, st).1;
      LowerShaped(h, ps, s.next, Cfg.None, answer, st1);
      ResumeLowersTo(h, ps, s, c, answer, st);
    }
  }

  /** A `resume` the continuation is spliced in for reads its argument, the continuation and what follows. */
  lemma ResumeLowersTo(h: Handler, ps: seq<Policy>, s: Stmt, c: Context, answer: Answer, st: State)
    requires Answerable(h) && |ps| == |h.clauses| && s.Resume? && s.resume == c.resume
    requires c.policy != Join && c.resumption.None?
    ensures var (spliced, st1) := Lower(h, ps, c.continuation, c.outer, c.answer, st);
      var g, rest := Lower(h, ps, s, Cfg.Some(c), answer, st).0, Lower(h, ps, s.next, Cfg.None, answer, st1).0;
      && (Dispatchless(spliced) && Dispatchless(rest) ==> Dispatchless(g))
      && GraphReads(g) <= Reads(s.arg) + (GraphReads(spliced) - OptionSet(c.performed))
        + (GraphReads(rest) - {s.result})
  {}

  lemma ResumeStays(h: Handler, ps: seq<Policy>, s: Stmt, context: Option<Context>, answer: Answer)
    requires !Astray(h, ps, s, context, answer) && s.Resume?
    ensures context.Some?
    ensures !Astray(h, ps, context.value.continuation, context.value.outer, context.value.answer)
    ensures !Astray(h, ps, s.next, Cfg.None, answer)
  {
    NoUseNoSite(s.next, context.value.resume);
    ResumesNothing(s.next, context.value.resume);
  }

  lemma {:induction false} PerformShaped(h: Handler, ps: seq<Policy>, s: Stmt, context: Option<Context>,
      answer: Answer, st: State)
    requires !Astray(h, ps, s, context, answer) && s.Perform? && s.effect == h.effect
    ensures Erased(h, ps, s, context, answer, st)
    decreases StmtCost(h, s, ContextCost(h, context), AnswerCost(h, answer)), 0
  {
    var i := Find(h.clauses, s.operation).value;
    var clause, policy := h.clauses[i], ps[i];
    PerformFinishes(h, ps, s, context, answer, st);
    var entered := ClauseContext(clause, policy, s.answer, s.next, answer, context, st);
    var (body, st1) := Lower(h, ps, clause.body, entered, Yield, st);
    var vars := Around(h, s, context, answer);
    assert policy in ps;
    EnteredShaped(h, ps, s, i, context, answer, st);
    assert clause.params[..|s.args|] == clause.params;
    ParamsShaped(h, clause.params, s.args, |s.args|, body, vars);
    if policy == Join { LowerShaped(h, ps, s.next, Cfg.None, answer, st1); }
  }

  /** The clause's own code, with what the perform asked is resumed with. */
  lemma {:induction false} EnteredShaped(h: Handler, ps: seq<Policy>, s: Stmt, i: nat, context: Option<Context>,
      answer: Answer, st: State)
    requires !Astray(h, ps, s, context, answer) && s.Perform? && s.effect == h.effect
    requires Find(h.clauses, s.operation) == Cfg.Some(i) && i < |ps|
    ensures var entered := ClauseContext(h.clauses[i], ps[i], s.answer, s.next, answer, context, st);
      var body := Lower(h, ps, h.clauses[i].body, entered, Yield, st).0;
      Dispatchless(body) && GraphReads(body) <= Around(h, s, context, answer) + Names(h.clauses[i].params)
    decreases StmtCost(h, s, ContextCost(h, context), AnswerCost(h, answer)), 0, 0
  {
    var clause, policy := h.clauses[i], ps[i];
    assert clause in h.clauses && policy in ps;
    var entered := ClauseContext(clause, policy, s.answer, s.next, answer, context, st);
    EnteredStays(h, ps, s, i, context, answer, st);
    LowerShaped(h, ps, clause.body, entered, Yield, st);
    ClauseReadsHome(h, i);
  }

  lemma EnteredStays(h: Handler, ps: seq<Policy>, s: Stmt, i: nat, context: Option<Context>, answer: Answer, st: State)
    requires !Astray(h, ps, s, context, answer) && s.Perform? && s.effect == h.effect
    requires Find(h.clauses, s.operation) == Cfg.Some(i) && i < |ps|
    ensures !Astray(h, ps, h.clauses[i].body,
      ClauseContext(h.clauses[i], ps[i], s.answer, s.next, answer, context, st), Yield)
  {
    var clause, policy := h.clauses[i], ps[i];
    assert clause in h.clauses && policy in ps;
    QuietIsDischarged(h, clause.body);
    assert AnswerReady(h, Yield)
      && ContextReady(h, ClauseContext(clause, policy, s.answer, s.next, answer, context, st));
  }

  lemma ClauseReadsHome(h: Handler, i: nat)
    requires i < |h.clauses|
    ensures Free(h.clauses[i].body) <= HomeReads(h) + Names(h.clauses[i].params)
  {
    forall v | v in Free(h.clauses[i].body) - Names(h.clauses[i].params) ensures v in HomeReads(h) {
      assert 0 <= i < |h.clauses| && v in Free(h.clauses[i].body) - Names(h.clauses[i].params);
    }
  }
}
