/** Compiling `perform` and `resume` away: clause bodies and continuations are spliced into the
    handled body, guided by what each return answers to and which clause a `resume` is in. */
module Erasure {
  import Cfg
  import opened Core
  import opened ClauseAnalysis
  import opened Linear

  /** What a `return` answers to. */
  datatype Answer =
    | Yield
    | HandlerReturn
    | Bind(binding: VarId, next: Stmt, context: Option<Context>, outer: Answer)

  /** The clause a `resume` belongs to, and the perform it answers. */
  datatype Context = Context(
    resume: VarId, performed: Option<VarId>, continuation: Stmt, answer: Answer,
    convention: Convention, policy: Policy, resumption: Option<ResumptionId>, outer: Option<Context>)

  /** The counters lowering hands identifiers out from. */
  datatype State = State(nextVar: VarId, nextResumption: ResumptionId, labels: map<ResumptionId, nat>) {
    function NextLabel(id: ResumptionId): nat { if id in labels then labels[id] else 0 }

    function TakeLabel(id: ResumptionId): State { this.(labels := labels[id := NextLabel(id) + 1]) }
  }

  /** No clause performs the effect it answers. */
  predicate Answerable(h: Handler) {
    forall c :: c in h.clauses ==> !Performs(c.body, h.effect)
  }

  /** Lowering the statement splices a continuation into it. */
  predicate Splices(h: Handler, s: Stmt, context: Option<Context>) {
    Performs(s, h.effect) || (context.Some? && Resumes(s, context.value.resume))
  }

  // ---------------------------------------------------------------- termination

  /** Bounds the lowering of `s` when lowering the continuation costs `continuation` and what its
      returns answer to costs `answer`. */
  function StmtCost(h: Handler, s: Stmt, continuation: nat, answer: nat): nat
    requires Answerable(h)
    decreases Performs(s, h.effect), s, 1
  {
    match s
    case Return(_) => 1 + answer
    case Let(_, _, next) => 1 + StmtCost(h, next, continuation, answer)
    case Val(_, graph, next) =>
      var rest := StmtCost(h, next, continuation, answer);
      1 + StmtCost(h, graph, continuation, rest) + StmtCost(h, graph, continuation, 0) + rest
    case Call(_, _, _, next) => 1 + StmtCost(h, next, continuation, answer)
    case If(_, x, y) => 1 + StmtCost(h, x, continuation, answer) + StmtCost(h, y, continuation, answer)
    case Perform(_, effect, operation, _, next) =>
      var rest := StmtCost(h, next, continuation, answer);
      var i := Find(h.clauses, operation);
      if effect != h.effect || i.None? then 1 + rest
      else
        var body := h.clauses[i.value].body;
        1 + StmtCost(h, body, rest, 0) + StmtCost(h, body, 0, 0) + StmtCost(h, next, 0, answer) + rest
    case Resume(_, _, _, next) =>
      1 + continuation + StmtCost(h, next, 0, answer) + StmtCost(h, next, continuation, answer)
    case Match(_, cases, default) =>
      1 + CasesCost(h, s, |cases|, continuation, answer)
      + if default.Some? then StmtCost(h, default.value, continuation, answer) else 0
  }

  function CasesCost(h: Handler, s: Stmt, n: nat, continuation: nat, answer: nat): nat
    requires Answerable(h) && s.Match? && n <= |s.cases|
    decreases Performs(s, h.effect), s, 0, n
  {
    if n == 0 then 0
    else CasesCost(h, s, n - 1, continuation, answer) + StmtCost(h, s.cases[n - 1].body, continuation, answer)
  }

  /** Each case costs less than its match. */
  lemma {:induction false} CaseCosts(h: Handler, s: Stmt, i: nat, continuation: nat, answer: nat)
    requires Answerable(h) && s.Match? && i < |s.cases|
    ensures StmtCost(h, s.cases[i].body, continuation, answer) < StmtCost(h, s, continuation, answer)
  {
    CasesCostMore(h, s, i + 1, |s.cases|, continuation, answer);
  }

  lemma {:induction false} CasesCostMore(h: Handler, s: Stmt, i: nat, n: nat, continuation: nat, answer: nat)
    requires Answerable(h) && s.Match? && i <= n <= |s.cases|
    ensures CasesCost(h, s, i, continuation, answer) <= CasesCost(h, s, n, continuation, answer)
  {
    if i < n { CasesCostMore(h, s, i, n - 1, continuation, answer); }
  }

  function AnswerCost(h: Handler, a: Answer): nat
    requires Answerable(h)
    decreases a
  {
    match a
    case Yield => 0
    case HandlerReturn => 0
    case Bind(_, next, context, outer) => StmtCost(h, next, ContextCost(h, context), AnswerCost(h, outer))
  }

  function ContextCost(h: Handler, c: Option<Context>): nat
    requires Answerable(h)
    decreases c
  {
    match c
    case None => 0
    case Some(c) => StmtCost(h, c.continuation, ContextCost(h, c.outer), AnswerCost(h, c.answer))
  }

  // ---------------------------------------------------------------- lowering

  /** The arguments bound around a spliced clause, the first outermost. */
  function BindParams(params: seq<VarId>, args: seq<Expr>, n: nat, g: Graph): Graph
    requires n <= |params| && n <= |args|
  {
    if n == 0 then g else BindParams(params, args, n - 1, Graph.Let(params[n - 1], args[n - 1], g))
  }

  function PairedArgs(params: seq<VarId>, args: seq<Expr>): nat {
    if |params| <= |args| then |params| else |args|
  }

  /** A binder is made up when the perform discards its answer. */
  function Binder(answer: Option<VarId>, st: State): (VarId, State) {
    match answer
    case Some(v) => (v, st)
    case None => (st.nextVar, st.(nextVar := st.nextVar + 1))
  }

  /** Lower `s`, in the clause `context` if any, its returns answering `answer`. `ps` names the
      strategy for each clause. */
  function Lower(h: Handler, ps: seq<Policy>, s: Stmt, context: Option<Context>, answer: Answer,
      st: State): (r: (Graph, State))
    requires Answerable(h) && |ps| == |h.clauses|
    ensures r.1.nextVar >= st.nextVar
    decreases StmtCost(h, s, ContextCost(h, context), AnswerCost(h, answer)), 1
  {
    match s
    case Return(e) =>
      (match answer
       case Yield => (Graph.Return(e), st)
       case HandlerReturn => (Graph.Let(h.returnParam, e, Plain(h.returnBody)), st)
       case Bind(b, next, bound, outer) =>
         var (rest, st1) := Lower(h, ps, next, bound, outer, st);
         (Graph.Let(b, e, rest), st1))
    case Let(b, e, next) =>
      var (rest, st1) := Lower(h, ps, next, context, answer, st);
      (Graph.Let(b, e, rest), st1)
    case Val(b, graph, next) =>
      if Splices(h, graph, context) then
        Lower(h, ps, graph, context, Bind(b, next, context, answer), st)
      else
        var (value, st1) := Lower(h, ps, graph, context, Yield, st);
        var (rest, st2) := Lower(h, ps, next, context, answer, st1);
        (Graph.Val(b, value, rest), st2)
    case Call(r, callee, args, next) =>
      var (rest, st1) := Lower(h, ps, next, context, answer, st);
      (Graph.Call(r, callee, args, rest), st1)
    case If(c, x, y) =>
      var (then_, st1) := Lower(h, ps, x, context, answer, st);
      var (else_, st2) := Lower(h, ps, y, context, answer, st1);
      (Graph.If(c, then_, else_), st2)
    case Perform(r, effect, operation, args, next) =>
      if effect == h.effect then LowerPerformed(h, ps, s, context, answer, st)
      else
        var (rest, st1) := Lower(h, ps, next, context, answer, st);
        (Graph.Perform(r, effect, operation, args, rest), st1)
    case Resume(_, _, _, _) => LowerResumed(h, ps, s, context, answer, st)
    case Match(_, _, _) => LowerMatched(h, ps, s, context, answer, st)
  }

  /** A perform the handler answers: its clause spliced in, and what the strategy puts around that. */
  function LowerPerformed(h: Handler, ps: seq<Policy>, s: Stmt, context: Option<Context>, answer: Answer,
      st: State): (r: (Graph, State))
    requires Answerable(h) && |ps| == |h.clauses| && s.Perform? && s.effect == h.effect
    ensures r.1.nextVar >= st.nextVar
    decreases StmtCost(h, s, ContextCost(h, context), AnswerCost(h, answer)), 0
  {
    var Perform(r, effect, operation, args, next) := s;
    var i := Find(h.clauses, operation);
    if i.None? then Lower(h, ps, next, context, answer, st)
    else
      var clause, policy := h.clauses[i.value], ps[i.value];
      var entered := ClauseContext(clause, policy, r, next, answer, context, st);
      var (body, st1) := Lower(h, ps, clause.body, entered, Yield, Reserve(policy, st));
      var lowered := BindParams(clause.params, args, PairedArgs(clause.params, args), body);
      Finish(h, ps, policy, r, next, context, answer, st.nextResumption, lowered, st1)
  }

  /** A `resume`: skipped outside its clause, and otherwise as the clause's strategy has it. */
  function LowerResumed(h: Handler, ps: seq<Policy>, s: Stmt, context: Option<Context>, answer: Answer,
      st: State): (r: (Graph, State))
    requires Answerable(h) && |ps| == |h.clauses| && s.Resume?
    ensures r.1.nextVar >= st.nextVar
    decreases StmtCost(h, s, ContextCost(h, context), AnswerCost(h, answer)), 0
  {
    var Resume(r, resume, arg, next) := s;
    if context.None? || resume != context.value.resume then
      Lower(h, ps, next, context, answer, st)
    else
      var c := context.value;
      if c.policy == Join then (Graph.Return(arg), st)
      else if c.resumption.Some? then
        var id := c.resumption.value;
        var (rest, st1) := Lower(h, ps, next, Cfg.None, answer, st.TakeLabel(id));
        (Graph.ResumeJump(id, st.NextLabel(id), arg, r, rest), st1)
      else
        var (spliced, st1) := Lower(h, ps, c.continuation, c.outer, c.answer, st);
        var entry := match c.performed case None => spliced case Some(p) => Graph.Let(p, arg, spliced);
        if IsIdentityReturn(next, r) && c.convention == Straight && !answer.Bind? then (entry, st1)
        else
          var (rest, st2) := Lower(h, ps, next, Cfg.None, answer, st1);
          (Graph.Val(r, entry, rest), st2)
  }

  function LowerMatched(h: Handler, ps: seq<Policy>, s: Stmt, context: Option<Context>, answer: Answer,
      st: State): (r: (Graph, State))
    requires Answerable(h) && |ps| == |h.clauses| && s.Match?
    ensures r.1.nextVar >= st.nextVar
    decreases StmtCost(h, s, ContextCost(h, context), AnswerCost(h, answer)), 0
  {
    var (arms, st1) := LowerCases(h, ps, s, |s.cases|, context, answer, st);
    if s.default.None? then (Graph.Match(s.scrutinee, arms, Cfg.None), st1)
    else
      var (otherwise, st2) := Lower(h, ps, s.default.value, context, answer, st1);
      (Graph.Match(s.scrutinee, arms, Cfg.Some(otherwise)), st2)
  }

  /** The first `n` cases, in their order. */
  function LowerCases(h: Handler, ps: seq<Policy>, s: Stmt, n: nat, context: Option<Context>, answer: Answer,
      st: State): (r: (seq<Arm>, State))
    requires Answerable(h) && |ps| == |h.clauses| && s.Match? && n <= |s.cases|
    ensures |r.0| == n && r.1.nextVar >= st.nextVar
    decreases CasesCost(h, s, n, ContextCost(h, context), AnswerCost(h, answer)), 2, n
  {
    if n == 0 then ([], st)
    else
      var (arms, st1) := LowerCases(h, ps, s, n - 1, context, answer, st);
      var (body, st2) := Lower(h, ps, s.cases[n - 1].body, context, answer, st1);
      (arms + [Arm(s.cases[n - 1].tag, s.cases[n - 1].binders, body)], st2)
  }

  /** What a strategy puts around a spliced clause. */
  function Finish(h: Handler, ps: seq<Policy>, policy: Policy, performed: Option<VarId>, next: Stmt,
      context: Option<Context>, answer: Answer, id: ResumptionId, clause: Graph, st: State): (r: (Graph, State))
    requires Answerable(h) && |ps| == |h.clauses|
    ensures r.1.nextVar >= st.nextVar
    decreases StmtCost(h, next, 0, AnswerCost(h, answer))
      + StmtCost(h, next, ContextCost(h, context), AnswerCost(h, answer)), 2
  {
    match policy
    case Inline => (clause, st)
    case Join =>
      var (rest, st1) := Lower(h, ps, next, Cfg.None, answer, st);
      var (b, st2) := Binder(performed, st1);
      (Graph.Val(b, clause, rest), st2)
    case Defunctionalise =>
      var (rest, st1) := Lower(h, ps, next, context, answer, st);
      var (b, st2) := Binder(performed, st1);
      (Graph.Resumption(id, clause, b, rest), st2)
  }

  /** A perform's clause is lowered first, and its strategy puts the rest around it. */
  lemma PerformFinishes(h: Handler, ps: seq<Policy>, s: Stmt, context: Option<Context>, answer: Answer, st: State)
    requires Answerable(h) && |ps| == |h.clauses| && s.Perform? && s.effect == h.effect
      && Find(h.clauses, s.operation).Some?
    ensures var clause, policy := h.clauses[Find(h.clauses, s.operation).value], ps[Find(h.clauses, s.operation).value];
      var entered := ClauseContext(clause, policy, s.answer, s.next, answer, context, st);
      var (body, st1) := Lower(h, ps, clause.body, entered, Yield, Reserve(policy, st));
      var lowered := BindParams(clause.params, s.args, PairedArgs(clause.params, s.args), body);
      Lower(h, ps, s, context, answer, st)
        == Finish(h, ps, policy, s.answer, s.next, context, answer, st.nextResumption, lowered, st1)
  {}

  function Reserve(policy: Policy, st: State): State {
    if policy == Defunctionalise then st.(nextResumption := st.nextResumption + 1) else st
  }

  function ClauseContext(clause: Clause, policy: Policy, performed: Option<VarId>, next: Stmt, answer: Answer,
      context: Option<Context>, st: State): Option<Context> {
    match clause.resumeParam
    case None => Cfg.None
    case Some(k) =>
      var id := if policy == Defunctionalise then Cfg.Some(st.nextResumption) else Cfg.None;
      Cfg.Some(Context(k, performed, next, answer, Convene(clause), policy, id, context))
  }
}
