/** Where an erased graph comes back from a shared continuation. The jumps into one continuation are told
    apart by their sites: a dispatch table has a slot for each, so no two may have the same, and none may
    be missing. */
module ResumeSites {
  import Cfg
  import opened Core
  import opened ClauseAnalysis
  import opened Linear
  import opened Erasure

  /** A shared continuation, or a place that jumps into one. */
  datatype Spot = Shared(id: ResumptionId) | Site(id: ResumptionId, site: nat)

  function Here(it: bool): nat { if it then 1 else 0 }

  /** How often the spot stands in the graph. */
  function Count(g: Graph, m: Spot): nat
    decreases g
  {
    match g
    case Return(_) => 0
    case Let(_, _, next) => Count(next, m)
    case Val(_, graph, next) => Count(graph, m) + Count(next, m)
    case Call(_, _, _, next) => Count(next, m)
    case If(_, x, y) => Count(x, m) + Count(y, m)
    case Perform(_, _, _, _, next) => Count(next, m)
    case Match(_, arms, default) => CountArms(arms, |arms|, m) + CountAfter(default, m)
    case Handle(_, body, after) => Count(body, m) + CountAfter(after, m)
    case Stage(_, body, after) => Count(body, m) + CountAfter(after, m)
    case Resumption(id, clause, _, continuation) => Here(m == Shared(id)) + Count(clause, m) + Count(continuation, m)
    case ResumeJump(id, site, _, _, next) => Here(m == Site(id, site)) + Count(next, m)
    case Error => 0
  }

  function CountAfter(after: Option<Graph>, m: Spot): nat
    decreases after
  {
    match after
    case None => 0
    case Some(next) => Count(next, m)
  }

  /** In the first `n` arms. */
  function CountArms(arms: seq<Arm>, n: nat, m: Spot): nat
    requires n <= |arms|
    decreases arms, n
  {
    if n == 0 then 0 else CountArms(arms, n - 1, m) + Count(arms[n - 1].body, m)
  }

  // ---------------------------------------------------------------- what the counters have handed out

  /** The first site of a continuation that is still to be handed out. */
  function Handed(labels: map<ResumptionId, nat>, id: ResumptionId): nat { if id in labels then labels[id] else 0 }

  predicate HandedOut(st: State, m: Spot) {
    match m
    case Shared(id) => id < st.nextResumption
    case Site(id, site) => site < Handed(st.labels, id)
  }

  /** Each spot handed out from `st` to `after` stands in the graph once, and no other does. */
  predicate Exact(g: Graph, st: State, after: State, m: Spot) {
    (HandedOut(st, m) ==> HandedOut(after, m)) && Count(g, m) == Here(HandedOut(after, m) && !HandedOut(st, m))
  }

  ghost predicate Tallies(h: Handler, ps: seq<Policy>, s: Stmt, context: Option<Context>, answer: Answer, st: State,
      m: Spot)
    requires Answerable(h) && |ps| == |h.clauses|
  {
    Exact(Lower(h, ps, s, context, answer, st).0, st, Lower(h, ps, s, context, answer, st).1, m)
  }

  lemma {:induction false} PlainCounts(s: Stmt, m: Spot)
    ensures Count(Plain(s), m) == 0
  {
    match s
    case Return(_) =>
    case Let(_, _, next) => PlainCounts(next, m);
    case Val(_, graph, next) => PlainCounts(graph, m); PlainCounts(next, m);
    case Call(_, _, _, next) => PlainCounts(next, m);
    case If(_, x, y) => PlainCounts(x, m); PlainCounts(y, m);
    case Perform(_, _, _, _, next) => PlainCounts(next, m);
    case Resume(_, _, _, next) => PlainCounts(next, m);
    case Match(_, cases, default) =>
      var arms := Plain(s).arms;
      forall i | 0 <= i < |arms| ensures Count(arms[i].body, m) == 0 { PlainCounts(cases[i].body, m); }
      ArmsCountNothing(arms, |arms|, m);
      if default.Some? { PlainCounts(default.value, m); }
  }

  lemma {:induction false} ArmsCountNothing(arms: seq<Arm>, n: nat, m: Spot)
    requires n <= |arms| && forall i :: 0 <= i < |arms| ==> Count(arms[i].body, m) == 0
    ensures CountArms(arms, n, m) == 0
  {
    if n > 0 { ArmsCountNothing(arms, n - 1, m); }
  }

  lemma {:induction false} ArmsCountSame(arms: seq<Arm>, more: seq<Arm>, n: nat, m: Spot)
    requires n <= |arms|
    ensures CountArms(arms + more, n, m) == CountArms(arms, n, m)
  {
    if n > 0 { ArmsCountSame(arms, more, n - 1, m); }
  }

  lemma {:induction false} ParamsCount(params: seq<VarId>, args: seq<Expr>, n: nat, g: Graph, m: Spot)
    requires n <= |params| && n <= |args|
    ensures Count(BindParams(params, args, n, g), m) == Count(g, m)
    decreases n
  {
    if n > 0 { ParamsCount(params, args, n - 1, Graph.Let(params[n - 1], args[n - 1], g), m); }
  }

  // ---------------------------------------------------------------- lowering hands each spot out once

  lemma {:induction false} LowerTallies(h: Handler, ps: seq<Policy>, s: Stmt, context: Option<Context>,
      answer: Answer, st: State, m: Spot)
    requires Answerable(h) && |ps| == |h.clauses|
    ensures Tallies(h, ps, s, context, answer, st, m)
    decreases StmtCost(h, s, ContextCost(h, context), AnswerCost(h, answer)), 1
  {
    match s
    case Return(_) =>
      if answer.HandlerReturn? {
        PlainCounts(h.returnBody, m);
      } else if answer.Bind? {
        LowerTallies(h, ps, answer.next, answer.context, answer.outer, st, m);
      }
    case Let(_, _, next) => LowerTallies(h, ps, next, context, answer, st, m);
    case Val(_, _, _) => ValTallies(h, ps, s, context, answer, st, m);
    case Call(_, _, _, next) => LowerTallies(h, ps, next, context, answer, st, m);
    case If(_, _, _) => IfTallies(h, ps, s, context, answer, st, m);
    case Perform(_, effect, _, _, next) =>
      if effect == h.effect {
        PerformTallies(h, ps, s, context, answer, st, m);
      } else {
        LowerTallies(h, ps, next, context, answer, st, m);
      }
    case Resume(_, _, _, _) => ResumeTallies(h, ps, s, context, answer, st, m);
    case Match(_, _, _) => MatchTallies(h, ps, s, context, answer, st, m);
  }

  lemma {:induction false} IfTallies(h: Handler, ps: seq<Policy>, s: Stmt, context: Option<Context>, answer: Answer,
      st: State, m: Spot)
    requires Answerable(h) && |ps| == |h.clauses| && s.If?
    ensures Tallies(h, ps, s, context, answer, st, m)
    decreases StmtCost(h, s, ContextCost(h, context), AnswerCost(h, answer)), 0
  {
    LowerTallies(h, ps, s.thenBranch, context, answer, st, m);
    var st1 := Lower(h, ps, s.thenBranch, context, answer, st).1;
    LowerTallies(h, ps, s.elseBranch, context, answer, st1, m);
  }

  lemma {:induction false} ValTallies(h: Handler, ps: seq<Policy>, s: Stmt, context: Option<Context>, answer: Answer,
      st: State, m: Spot)
    requires Answerable(h) && |ps| == |h.clauses| && s.Val?
    ensures Tallies(h, ps, s, context, answer, st, m)
    decreases StmtCost(h, s, ContextCost(h, context), AnswerCost(h, answer)), 0
  {
    var Val(b, graph, next) := s;
    if Splices(h, graph, context) {
      LowerTallies(h, ps, graph, context, Bind(b, next, context, answer), st, m);
    } else {
      LowerTallies(h, ps, graph, context, Yield, st, m);
      LowerTallies(h, ps, next, context, answer, Lower(h, ps, graph, context, Yield, st).1, m);
    }
  }

  lemma {:induction false} ResumeTallies(h: Handler, ps: seq<Policy>, s: Stmt, context: Option<Context>,
      answer: Answer, st: State, m: Spot)
    requires Answerable(h) && |ps| == |h.clauses| && s.Resume?
    ensures Tallies(h, ps, s, context, answer, st, m)
    decreases StmtCost(h, s, ContextCost(h, context), AnswerCost(h, answer)), 0
  {
    if context.None? || s.resume != context.value.resume {
      LowerTallies(h, ps, s.next, context, answer, st, m);
    } else {
      var c := context.value;
      if c.policy == Join {
      } else if c.resumption.Some? {
        JumpTallies(h, ps, s, c, answer, st, m);
      } else {
        LowerTallies(h, ps, c.continuation, c.outer, c.answer, st, m);
        LowerTallies(h, ps, s.next, Cfg.None, answer, Lower(h, ps, c.continuation, c.outer, c.answer, st).1, m);
      }
    }
  }

  /** A jump takes the next site of its continuation, and what follows takes those after it. */
  lemma {:induction false} JumpTallies(h: Handler, ps: seq<Policy>, s: Stmt, c: Context, answer: Answer, st: State,
      m: Spot)
    requires Answerable(h) && |ps| == |h.clauses| && s.Resume? && s.resume == c.resume
    requires c.policy != Join && c.resumption.Some?
    ensures Tallies(h, ps, s, Cfg.Some(c), answer, st, m)
    decreases StmtCost(h, s, ContextCost(h, Cfg.Some(c)), AnswerCost(h, answer)), 0, 0
  {
    var id := c.resumption.value;
    LowerTallies(h, ps, s.next, Cfg.None, answer, st.TakeLabel(id), m);
  }

  lemma {:induction false} PerformTallies(h: Handler, ps: seq<Policy>, s: Stmt, context: Option<Context>,
      answer: Answer, st: State, m: Spot)
    requires Answerable(h) && |ps| == |h.clauses| && s.Perform? && s.effect == h.effect
    ensures Tallies(h, ps, s, context, answer, st, m)
    decreases StmtCost(h, s, ContextCost(h, context), AnswerCost(h, answer)), 0
  {
    var i := Find(h.clauses, s.operation);
    if i.None? {
      LowerTallies(h, ps, s.next, context, answer, st, m);
    } else {
      var clause, policy := h.clauses[i.value], ps[i.value];
      var entered := ClauseContext(clause, policy, s.answer, s.next, answer, context, st);
      var (body, st1) := Lower(h, ps, clause.body, entered, Yield, Reserve(policy, st));
      var lowered := BindParams(clause.params, s.args, PairedArgs(clause.params, s.args), body);
      LowerTallies(h, ps, clause.body, entered, Yield, Reserve(policy, st), m);
      ParamsCount(clause.params, s.args, PairedArgs(clause.params, s.args), body, m);
      PerformFinishes(h, ps, s, context, answer, st);
      FinishTallies(h, ps, policy, s.answer, s.next, context, answer, lowered, st, st1, m);
    }
  }

  /** The shared continuation was numbered before its clause was lowered; it goes around the clause. */
  lemma {:induction false} FinishTallies(h: Handler, ps: seq<Policy>, policy: Policy, performed: Option<VarId>,
      next: Stmt, context: Option<Context>, answer: Answer, clause: Graph, st: State, st1: State, m: Spot)
    requires Answerable(h) && |ps| == |h.clauses| && Exact(clause, Reserve(policy, st), st1, m)
    ensures var (g, after) := Finish(h, ps, policy, performed, next, context, answer, st.nextResumption, clause, st1);
      Exact(g, st, after, m)
    decreases StmtCost(h, next, 0, AnswerCost(h, answer))
      + StmtCost(h, next, ContextCost(h, context), AnswerCost(h, answer)), 2
  {
    if policy != Inline {
      var around := if policy == Join then Cfg.None else context;
      LowerTallies(h, ps, next, around, answer, st1, m);
      FinishCounts(h, ps, policy, performed, next, context, answer, st.nextResumption, clause, st1, m);
    }
  }

  lemma FinishCounts(h: Handler, ps: seq<Policy>, policy: Policy, performed: Option<VarId>, next: Stmt,
      context: Option<Context>, answer: Answer, id: ResumptionId, clause: Graph, st: State, m: Spot)
    requires Answerable(h) && |ps| == |h.clauses| && policy != Inline
    ensures var (rest, st1) := Lower(h, ps, next, if policy == Join then Cfg.None else context, answer, st);
      var (g, after) := Finish(h, ps, policy, performed, next, context, answer, id, clause, st);
      && Count(g, m) == Here(policy == Defunctionalise && m == Shared(id)) + Count(clause, m) + Count(rest, m)
      && HandedOut(after, m) == HandedOut(st1, m)
  {}

  lemma {:induction false} MatchTallies(h: Handler, ps: seq<Policy>, s: Stmt, context: Option<Context>,
      answer: Answer, st: State, m: Spot)
    requires Answerable(h) && |ps| == |h.clauses| && s.Match?
    ensures Tallies(h, ps, s, context, answer, st, m)
    decreases StmtCost(h, s, ContextCost(h, context), AnswerCost(h, answer)), 0
  {
    var (arms, st1) := LowerCases(h, ps, s, |s.cases|, context, answer, st);
    CasesTally(h, ps, s, |s.cases|, context, answer, st, m);
    MatchCounts(h, ps, s, context, answer, st, m);
    if s.default.Some? { LowerTallies(h, ps, s.default.value, context, answer, st1, m); }
  }

  lemma MatchCounts(h: Handler, ps: seq<Policy>, s: Stmt, context: Option<Context>, answer: Answer, st: State, m: Spot)
    requires Answerable(h) && |ps| == |h.clauses| && s.Match?
    ensures var (arms, st1) := LowerCases(h, ps, s, |s.cases|, context, answer, st);
      var (g, after) := Lower(h, ps, s, context, answer, st);
      if s.default.None? then Count(g, m) == CountArms(arms, |arms|, m) && after == st1
      else
        var (other, st2) := Lower(h, ps, s.default.value, context, answer, st1);
        Count(g, m) == CountArms(arms, |arms|, m) + Count(other, m) && after == st2
  {}

  lemma {:induction false} CasesTally(h: Handler, ps: seq<Policy>, s: Stmt, n: nat, context: Option<Context>,
      answer: Answer, st: State, m: Spot)
    requires Answerable(h) && |ps| == |h.clauses| && s.Match? && n <= |s.cases|
    ensures var (arms, after) := LowerCases(h, ps, s, n, context, answer, st);
      (HandedOut(st, m) ==> HandedOut(after, m))
        && CountArms(arms, n, m) == Here(HandedOut(after, m) && !HandedOut(st, m))
    decreases StmtCost(h, s, ContextCost(h, context), AnswerCost(h, answer)), 0, n
  {
    if n > 0 {
      var (arms, st1) := LowerCases(h, ps, s, n - 1, context, answer, st);
      CasesTally(h, ps, s, n - 1, context, answer, st, m);
      CaseCosts(h, s, n - 1, ContextCost(h, context), AnswerCost(h, answer));
      LowerTallies(h, ps, s.cases[n - 1].body, context, answer, st1, m);
      var all := LowerCases(h, ps, s, n, context, answer, st).0;
      ArmsCountSame(arms, all[n - 1..], n - 1, m);
      assert all == arms + all[n - 1..];
    }
  }

  // ---------------------------------------------------------------- a jump is inside its own clause

  /** Every jump is in the clause of the continuation it enters, or of one of `open`. */
  predicate Scoped(g: Graph, open: set<ResumptionId>)
    decreases g
  {
    match g
    case Return(_) => true
    case Let(_, _, next) => Scoped(next, open)
    case Val(_, graph, next) => Scoped(graph, open) && Scoped(next, open)
    case Call(_, _, _, next) => Scoped(next, open)
    case If(_, x, y) => Scoped(x, open) && Scoped(y, open)
    case Perform(_, _, _, _, next) => Scoped(next, open)
    case Match(_, arms, default) =>
      (forall i :: 0 <= i < |arms| ==> Scoped(arms[i].body, open)) && ScopedAfter(default, open)
    case Handle(_, body, after) => Scoped(body, open) && ScopedAfter(after, open)
    case Stage(_, body, after) => Scoped(body, open) && ScopedAfter(after, open)
    case Resumption(id, clause, _, continuation) => Scoped(clause, open + {id}) && Scoped(continuation, open)
    case ResumeJump(id, _, _, _, next) => id in open && Scoped(next, open)
    case Error => true
  }

  predicate ScopedAfter(after: Option<Graph>, open: set<ResumptionId>)
    decreases after
  {
    after.Some? ==> Scoped(after.value, open)
  }

  /** The continuations a clause, or what its returns answer to, may jump into. */
  predicate ContextIn(c: Option<Context>, open: set<ResumptionId>)
    decreases c
  {
    match c
    case None => true
    case Some(c) =>
      && (c.resumption.Some? ==> c.resumption.value in open)
      && ContextIn(c.outer, open) && AnswerIn(c.answer, open)
  }

  predicate AnswerIn(a: Answer, open: set<ResumptionId>)
    decreases a
  {
    match a
    case Bind(_, _, context, outer) => ContextIn(context, open) && AnswerIn(outer, open)
    case _ => true
  }

  lemma {:induction false} ContextInMore(c: Option<Context>, open: set<ResumptionId>, more: set<ResumptionId>)
    requires ContextIn(c, open) && open <= more
    ensures ContextIn(c, more)
    decreases c
  {
    if c.Some? {
      ContextInMore(c.value.outer, open, more);
      AnswerInMore(c.value.answer, open, more);
    }
  }

  lemma {:induction false} AnswerInMore(a: Answer, open: set<ResumptionId>, more: set<ResumptionId>)
    requires AnswerIn(a, open) && open <= more
    ensures AnswerIn(a, more)
    decreases a
  {
    if a.Bind? {
      ContextInMore(a.context, open, more);
      AnswerInMore(a.outer, open, more);
    }
  }

  lemma {:induction false} PlainScoped(s: Stmt, open: set<ResumptionId>)
    ensures Scoped(Plain(s), open)
  {
    match s
    case Return(_) =>
    case Let(_, _, next) => PlainScoped(next, open);
    case Val(_, graph, next) => PlainScoped(graph, open); PlainScoped(next, open);
    case Call(_, _, _, next) => PlainScoped(next, open);
    case If(_, x, y) => PlainScoped(x, open); PlainScoped(y, open);
    case Perform(_, _, _, _, next) => PlainScoped(next, open);
    case Resume(_, _, _, next) => PlainScoped(next, open);
    case Match(_, cases, default) =>
      var arms := Plain(s).arms;
      forall i | 0 <= i < |arms| ensures Scoped(arms[i].body, open) { PlainScoped(cases[i].body, open); }
      if default.Some? { PlainScoped(default.value, open); }
  }

  lemma {:induction false} ParamsScoped(params: seq<VarId>, args: seq<Expr>, n: nat, g: Graph, open: set<ResumptionId>)
    requires n <= |params| && n <= |args| && Scoped(g, open)
    ensures Scoped(BindParams(params, args, n, g), open)
    decreases n
  {
    if n > 0 { ParamsScoped(params, args, n - 1, Graph.Let(params[n - 1], args[n - 1], g), open); }
  }

  lemma {:induction false} LowerScoped(h: Handler, ps: seq<Policy>, s: Stmt, context: Option<Context>,
      answer: Answer, st: State, open: set<ResumptionId>)
    requires Answerable(h) && |ps| == |h.clauses| && ContextIn(context, open) && AnswerIn(answer, open)
    ensures Scoped(Lower(h, ps, s, context, answer, st).0, open)
    decreases StmtCost(h, s, ContextCost(h, context), AnswerCost(h, answer)), 1
  {
    match s
    case Return(_) =>
      if answer.HandlerReturn? {
        PlainScoped(h.returnBody, open);
      } else if answer.Bind? {
        LowerScoped(h, ps, answer.next, answer.context, answer.outer, st, open);
      }
    case Let(_, _, next) => LowerScoped(h, ps, next, context, answer, st, open);
    case Val(_, _, _) => ValScoped(h, ps, s, context, answer, st, open);
    case Call(_, _, _, next) => LowerScoped(h, ps, next, context, answer, st, open);
    case If(_, _, _) => IfScoped(h, ps, s, context, answer, st, open);
    case Perform(_, effect, _, _, next) =>
      if effect == h.effect {
        PerformScoped(h, ps, s, context, answer, st, open);
      } else {
        LowerScoped(h, ps, next, context, answer, st, open);
      }
    case Resume(_, _, _, _) => ResumeScoped(h, ps, s, context, answer, st, open);
    case Match(_, _, _) => MatchScoped(h, ps, s, context, answer, st, open);
  }

  lemma {:induction false} IfScoped(h: Handler, ps: seq<Policy>, s: Stmt, context: Option<Context>, answer: Answer,
      st: State, open: set<ResumptionId>)
    requires Answerable(h) && |ps| == |h.clauses| && ContextIn(context, open) && AnswerIn(answer, open) && s.If?
    ensures Scoped(Lower(h, ps, s, context, answer, st).0, open)
    decreases StmtCost(h, s, ContextCost(h, context), AnswerCost(h, answer)), 0
  {
    LowerScoped(h, ps, s.thenBranch, context, answer, st, open);
    var st1 := Lower(h, ps, s.thenBranch, context, answer, st).1;
    LowerScoped(h, ps, s.elseBranch, context, answer, st1, open);
  }

  lemma {:induction false} ValScoped(h: Handler, ps: seq<Policy>, s: Stmt, context: Option<Context>, answer: Answer,
      st: State, open: set<ResumptionId>)
    requires Answerable(h) && |ps| == |h.clauses| && ContextIn(context, open) && AnswerIn(answer, open) && s.Val?
    ensures Scoped(Lower(h, ps, s, context, answer, st).0, open)
    decreases StmtCost(h, s, ContextCost(h, context), AnswerCost(h, answer)), 0
  {
    var Val(b, graph, next) := s;
    if Splices(h, graph, context) {
      LowerScoped(h, ps, graph, context, Bind(b, next, context, answer), st, open);
    } else {
      LowerScoped(h, ps, graph, context, Yield, st, open);
      LowerScoped(h, ps, next, context, answer, Lower(h, ps, graph, context, Yield, st).1, open);
    }
  }

  lemma {:induction false} ResumeScoped(h: Handler, ps: seq<Policy>, s: Stmt, context: Option<Context>,
      answer: Answer, st: State, open: set<ResumptionId>)
    requires Answerable(h) && |ps| == |h.clauses| && ContextIn(context, open) && AnswerIn(answer, open) && s.Resume?
    ensures Scoped(Lower(h, ps, s, context, answer, st).0, open)
    decreases StmtCost(h, s, ContextCost(h, context), AnswerCost(h, answer)), 0
  {
    if context.None? || s.resume != context.value.resume {
      LowerScoped(h, ps, s.next, context, answer, st, open);
    } else {
      var c := context.value;
      if c.policy == Join {
      } else if c.resumption.Some? {
        LowerScoped(h, ps, s.next, Cfg.None, answer, st.TakeLabel(c.resumption.value), open);
      } else {
        LowerScoped(h, ps, c.continuation, c.outer, c.answer, st, open);
        LowerScoped(h, ps, s.next, Cfg.None, answer, Lower(h, ps, c.continuation, c.outer, c.answer, st).1, open);
      }
    }
  }

  lemma {:induction false} PerformScoped(h: Handler, ps: seq<Policy>, s: Stmt, context: Option<Context>,
      answer: Answer, st: State, open: set<ResumptionId>)
    requires Answerable(h) && |ps| == |h.clauses| && ContextIn(context, open) && AnswerIn(answer, open)
      && s.Perform? && s.effect == h.effect
    ensures Scoped(Lower(h, ps, s, context, answer, st).0, open)
    decreases StmtCost(h, s, ContextCost(h, context), AnswerCost(h, answer)), 0
  {
    var i := Find(h.clauses, s.operation);
    if i.None? {
      LowerScoped(h, ps, s.next, context, answer, st, open);
    } else {
      var clause, policy := h.clauses[i.value], ps[i.value];
      var entered := ClauseContext(clause, policy, s.answer, s.next, answer, context, st);
      var (body, st1) := Lower(h, ps, clause.body, entered, Yield, Reserve(policy, st));
      var lowered := BindParams(clause.params, s.args, PairedArgs(clause.params, s.args), body);
      var more := if policy == Defunctionalise then open + {st.nextResumption} else open;
      ContextInMore(context, open, more);
      AnswerInMore(answer, open, more);
      LowerScoped(h, ps, clause.body, entered, Yield, Reserve(policy, st), more);
      ParamsScoped(clause.params, s.args, PairedArgs(clause.params, s.args), body, more);
      PerformFinishes(h, ps, s, context, answer, st);
      FinishScoped(h, ps, policy, s.answer, s.next, context, answer, st.nextResumption, lowered, st1, open);
    }
  }

  lemma {:induction false} FinishScoped(h: Handler, ps: seq<Policy>, policy: Policy, performed: Option<VarId>,
      next: Stmt, context: Option<Context>, answer: Answer, id: ResumptionId, clause: Graph, st: State,
      open: set<ResumptionId>)
    requires Answerable(h) && |ps| == |h.clauses| && ContextIn(context, open) && AnswerIn(answer, open)
    requires Scoped(clause, if policy == Defunctionalise then open + {id} else open)
    ensures Scoped(Finish(h, ps, policy, performed, next, context, answer, id, clause, st).0, open)
    decreases StmtCost(h, next, 0, AnswerCost(h, answer))
      + StmtCost(h, next, ContextCost(h, context), AnswerCost(h, answer)), 2
  {
    match policy
    case Inline =>
    case Join => LowerScoped(h, ps, next, Cfg.None, answer, st, open);
    case Defunctionalise => LowerScoped(h, ps, next, context, answer, st, open);
  }

  lemma {:induction false} MatchScoped(h: Handler, ps: seq<Policy>, s: Stmt, context: Option<Context>,
      answer: Answer, st: State, open: set<ResumptionId>)
    requires Answerable(h) && |ps| == |h.clauses| && ContextIn(context, open) && AnswerIn(answer, open) && s.Match?
    ensures Scoped(Lower(h, ps, s, context, answer, st).0, open)
    decreases StmtCost(h, s, ContextCost(h, context), AnswerCost(h, answer)), 0
  {
    var (arms, st1) := LowerCases(h, ps, s, |s.cases|, context, answer, st);
    CasesScoped(h, ps, s, |s.cases|, context, answer, st, open);
    if s.default.Some? { LowerScoped(h, ps, s.default.value, context, answer, st1, open); }
  }

  lemma {:induction false} CasesScoped(h: Handler, ps: seq<Policy>, s: Stmt, n: nat, context: Option<Context>,
      answer: Answer, st: State, open: set<ResumptionId>)
    requires Answerable(h) && |ps| == |h.clauses| && ContextIn(context, open) && AnswerIn(answer, open)
      && s.Match? && n <= |s.cases|
    ensures forall i :: 0 <= i < n ==> Scoped(LowerCases(h, ps, s, n, context, answer, st).0[i].body, open)
    decreases StmtCost(h, s, ContextCost(h, context), AnswerCost(h, answer)), 0, n
  {
    if n > 0 {
      CasesScoped(h, ps, s, n - 1, context, answer, st, open);
      CaseCosts(h, s, n - 1, ContextCost(h, context), AnswerCost(h, answer));
      var st1 := LowerCases(h, ps, s, n - 1, context, answer, st).1;
      LowerScoped(h, ps, s.cases[n - 1].body, context, answer, st1, open);
    }
  }

  /** A jump that is not into something already open stands in the graph with its continuation. */
  lemma {:induction false} JumpHasItsContinuation(g: Graph, open: set<ResumptionId>, id: ResumptionId, site: nat)
    requires Scoped(g, open) && id !in open && Count(g, Site(id, site)) > 0
    ensures Count(g, Shared(id)) > 0
    decreases g
  {
    var m := Site(id, site);
    match g
    case Return(_) =>
    case Let(_, _, next) => JumpHasItsContinuation(next, open, id, site);
    case Val(_, graph, next) =>
      JumpHasItsContinuation(if Count(graph, m) > 0 then graph else next, open, id, site);
    case Call(_, _, _, next) => JumpHasItsContinuation(next, open, id, site);
    case If(_, x, y) => JumpHasItsContinuation(if Count(x, m) > 0 then x else y, open, id, site);
    case Perform(_, _, _, _, next) => JumpHasItsContinuation(next, open, id, site);
    case Match(_, arms, default) =>
      if CountArms(arms, |arms|, m) > 0 {
        var i := ArmCounted(arms, |arms|, m);
        JumpHasItsContinuation(arms[i].body, open, id, site);
        ArmCounts(arms, |arms|, i, Shared(id));
      } else {
        JumpHasItsContinuation(default.value, open, id, site);
      }
    case Handle(_, body, after) =>
      JumpHasItsContinuation(if Count(body, m) > 0 then body else after.value, open, id, site);
    case Stage(_, body, after) =>
      JumpHasItsContinuation(if Count(body, m) > 0 then body else after.value, open, id, site);
    case Resumption(other, clause, _, continuation) =>
      if id != other {
        if Count(clause, m) > 0 {
          JumpHasItsContinuation(clause, open + {other}, id, site);
        } else {
          JumpHasItsContinuation(continuation, open, id, site);
        }
      }
    case ResumeJump(_, _, _, _, next) => JumpHasItsContinuation(next, open, id, site);
    case Error =>
  }

  lemma {:induction false} ArmCounted(arms: seq<Arm>, n: nat, m: Spot) returns (i: nat)
    requires n <= |arms| && CountArms(arms, n, m) > 0
    ensures i < n && Count(arms[i].body, m) > 0
  {
    if Count(arms[n - 1].body, m) > 0 { i := n - 1; } else { i := ArmCounted(arms, n - 1, m); }
  }

  lemma {:induction false} ArmCounts(arms: seq<Arm>, n: nat, i: nat, m: Spot)
    requires i < n <= |arms|
    ensures Count(arms[i].body, m) <= CountArms(arms, n, m)
  {
    if i < n - 1 { ArmCounts(arms, n - 1, i, m); }
  }

  // ---------------------------------------------------------------- dispatch tables

  /** Jumps into a continuation have the sites from zero up to their number, each site once. */
  ghost predicate Dense(g: Graph, id: ResumptionId) {
    exists n: nat :: SitesBelow(g, id, n)
  }

  ghost predicate SitesBelow(g: Graph, id: ResumptionId, n: nat) {
    forall site: nat :: Count(g, Site(id, site)) == if site < n then 1 else 0
  }

  /** Each continuation is shared in one place, and a table with a slot for each site takes every jump into it
      to code of its own. */
  ghost predicate Dispatchable(g: Graph) {
    && Scoped(g, {})
    && (forall id :: Count(g, Shared(id)) <= 1)
    && forall id :: Dense(g, id)
  }

  /** No site of a continuation that is still to be numbered has been handed out. */
  ghost predicate Unlabelled(st: State) {
    forall id: ResumptionId :: id >= st.nextResumption ==> Handed(st.labels, id) == 0
  }

  /** A handled body lowers to a graph whose dispatch tables are exact, and leaves the counters fit for the
      next handler. */
  lemma LowerIsDispatchable(h: Handler, ps: seq<Policy>, s: Stmt, st: State)
    requires Answerable(h) && |ps| == |h.clauses| && Unlabelled(st)
    ensures var (g, after) := Lower(h, ps, s, Cfg.None, HandlerReturn, st);
      && Dispatchable(g) && Unlabelled(after)
      && forall id: ResumptionId :: Count(g, Shared(id)) == 1 <==> st.nextResumption <= id < after.nextResumption
  {
    var (g, after) := Lower(h, ps, s, Cfg.None, HandlerReturn, st);
    LowerScoped(h, ps, s, Cfg.None, HandlerReturn, st, {});
    forall m ensures Exact(g, st, after, m) { LowerTallies(h, ps, s, Cfg.None, HandlerReturn, st, m); }
    forall id: ResumptionId
      ensures SitesBelow(g, id, if Count(g, Shared(id)) > 0 then Handed(after.labels, id) else 0)
      ensures id >= after.nextResumption ==> Handed(after.labels, id) == 0
    {
      assert Exact(g, st, after, Shared(id)) && Exact(g, st, after, Site(id, 0));
      forall site: nat ensures Count(g, Site(id, site)) > 0 ==> Count(g, Shared(id)) > 0 {
        if Count(g, Site(id, site)) > 0 { JumpHasItsContinuation(g, {}, id, site); }
      }
      forall site: nat ensures Exact(g, st, after, Site(id, site)) {}
    }
    forall id ensures Count(g, Shared(id)) <= 1 && Dense(g, id) {
      assert Exact(g, st, after, Shared(id));
    }
    forall id: ResumptionId
      ensures Count(g, Shared(id)) == 1 <==> st.nextResumption <= id < after.nextResumption
    {
      assert Exact(g, st, after, Shared(id));
    }
  }
}
