/** What joining and sharing are for: the clause is lowered without the code after the perform, which then
    stands beside it once, however often the clause resumes. */
module OneCopy {
  import Cfg
  import opened Core
  import opened ClauseAnalysis
  import opened Linear
  import opened Erasure
  import opened ErasureMeaning

  /** Clauses a `resume` goes through alike, whatever they resume. */
  predicate ContextAlike(left: Option<Context>, right: Option<Context>) {
    match (left, right)
    case (None, None) => true
    case (Some(l), Some(r)) =>
      && l.resume == r.resume && l.convention == r.convention && l.policy == r.policy && l.resumption == r.resumption
      && (l.policy == Join || l.resumption.Some?)
    case _ => false
  }

  /** The same code to go on with, in clauses that are alike; none of it performs the effect. */
  predicate AnswerAlike(h: Handler, left: Answer, right: Answer)
    decreases left
  {
    match (left, right)
    case (Yield, Yield) => true
    case (HandlerReturn, HandlerReturn) => true
    case (Bind(b, next, context, outer), Bind(b', next', context', outer')) =>
      b == b' && next == next' && !Performs(next, h.effect) && ContextAlike(context, context')
        && AnswerAlike(h, outer, outer')
    case _ => false
  }

  predicate Alike(h: Handler, ps: seq<Policy>, s: Stmt, left: Option<Context>, right: Option<Context>, l: Answer,
      r: Answer) {
    Answerable(h) && |ps| == |h.clauses| && !Performs(s, h.effect) && ContextAlike(left, right) && AnswerAlike(h, l, r)
  }

  lemma {:induction false} LowersAlike(h: Handler, ps: seq<Policy>, s: Stmt, left: Option<Context>,
      right: Option<Context>, l: Answer, r: Answer, st: State)
    requires Alike(h, ps, s, left, right, l, r)
    ensures Lower(h, ps, s, left, l, st) == Lower(h, ps, s, right, r, st)
    decreases StmtCost(h, s, ContextCost(h, left), AnswerCost(h, l)), 1
  {
    match s
    case Return(_) =>
      if l.Bind? { LowersAlike(h, ps, l.next, l.context, r.context, l.outer, r.outer, st); }
    case Let(_, _, next) => LowersAlike(h, ps, next, left, right, l, r, st);
    case Val(_, _, _) => ValLowersAlike(h, ps, s, left, right, l, r, st);
    case Call(_, _, _, next) => LowersAlike(h, ps, next, left, right, l, r, st);
    case If(_, x, y) =>
      LowersAlike(h, ps, x, left, right, l, r, st);
      LowersAlike(h, ps, y, left, right, l, r, Lower(h, ps, x, left, l, st).1);
    case Perform(_, _, _, _, next) => LowersAlike(h, ps, next, left, right, l, r, st);
    case Resume(_, resume, _, next) =>
      if left.None? || resume != left.value.resume {
        LowersAlike(h, ps, next, left, right, l, r, st);
      } else if left.value.policy != Join {
        LowersAlike(h, ps, next, Cfg.None, Cfg.None, l, r, st.TakeLabel(left.value.resumption.value));
      }
    case Match(_, _, _) => MatchLowersAlike(h, ps, s, left, right, l, r, st);
  }

  lemma {:induction false} ValLowersAlike(h: Handler, ps: seq<Policy>, s: Stmt, left: Option<Context>,
      right: Option<Context>, l: Answer, r: Answer, st: State)
    requires Alike(h, ps, s, left, right, l, r) && s.Val?
    ensures Lower(h, ps, s, left, l, st) == Lower(h, ps, s, right, r, st)
    decreases StmtCost(h, s, ContextCost(h, left), AnswerCost(h, l)), 0
  {
    var Val(b, graph, next) := s;
    if Splices(h, graph, left) {
      LowersAlike(h, ps, graph, left, right, Bind(b, next, left, l), Bind(b, next, right, r), st);
    } else {
      LowersAlike(h, ps, graph, left, right, Yield, Yield, st);
      LowersAlike(h, ps, next, left, right, l, r, Lower(h, ps, graph, left, Yield, st).1);
    }
  }

  lemma {:induction false} MatchLowersAlike(h: Handler, ps: seq<Policy>, s: Stmt, left: Option<Context>,
      right: Option<Context>, l: Answer, r: Answer, st: State)
    requires Alike(h, ps, s, left, right, l, r) && s.Match?
    ensures Lower(h, ps, s, left, l, st) == Lower(h, ps, s, right, r, st)
    decreases StmtCost(h, s, ContextCost(h, left), AnswerCost(h, l)), 0
  {
    CasesLowerAlike(h, ps, s, |s.cases|, left, right, l, r, st);
    if s.default.Some? {
      LowersAlike(h, ps, s.default.value, left, right, l, r, LowerCases(h, ps, s, |s.cases|, left, l, st).1);
    }
  }

  lemma {:induction false} CasesLowerAlike(h: Handler, ps: seq<Policy>, s: Stmt, n: nat, left: Option<Context>,
      right: Option<Context>, l: Answer, r: Answer, st: State)
    requires Alike(h, ps, s, left, right, l, r) && s.Match? && n <= |s.cases|
    ensures LowerCases(h, ps, s, n, left, l, st) == LowerCases(h, ps, s, n, right, r, st)
    decreases StmtCost(h, s, ContextCost(h, left), AnswerCost(h, l)), 0, n
  {
    if n > 0 {
      CasesLowerAlike(h, ps, s, n - 1, left, right, l, r, st);
      CaseCosts(h, s, n - 1, ContextCost(h, left), AnswerCost(h, l));
      assert s.cases[n - 1].body in Branches(s);
      LowersAlike(h, ps, s.cases[n - 1].body, left, right, l, r, LowerCases(h, ps, s, n - 1, left, l, st).1);
    }
  }

  /** The clause in the graph of a perform, beside which stands what follows the perform. */
  predicate Beside(g: Graph, clause: Graph, rest: Graph) {
    (g.Val? && g.graph == clause && g.next == rest)
      || (g.Resumption? && g.clause == clause && g.continuation == rest)
  }

  /** What a strategy that does not splice puts beside the clause. */
  lemma RestOf(h: Handler, ps: seq<Policy>, policy: Policy, s: Stmt, context: Option<Context>, answer: Answer,
      id: ResumptionId, clause: Graph, st: State)
    returns (rest: Graph)
    requires Answerable(h) && |ps| == |h.clauses| && policy != Inline && s.Perform?
    ensures Beside(Finish(h, ps, policy, s.answer, s.next, context, answer, id, clause, st).0, clause, rest)
    ensures rest == Lower(h, ps, s.next, if policy == Join then Cfg.None else context, answer, st).0
  {
    rest := Lower(h, ps, s.next, if policy == Join then Cfg.None else context, answer, st).0;
  }

  /** A clause that is not spliced in is lowered alike whatever it resumes: another perform of the operation, with
      any other code after it, gives the same clause. What follows the perform is lowered once, beside it. */
  lemma ClauseIsApart(h: Handler, ps: seq<Policy>, s: Stmt, context: Option<Context>, answer: Answer, s': Stmt,
      context': Option<Context>, answer': Answer, st: State)
    returns (clause: Graph, after: State)
    requires Answerable(h) && |ps| == |h.clauses| && s.Perform? && s.effect == h.effect
      && Find(h.clauses, s.operation).Some? && ps[Find(h.clauses, s.operation).value] != Inline
    requires s'.Perform? && s'.effect == s.effect && s'.operation == s.operation && s'.args == s.args
    ensures var around := if ps[Find(h.clauses, s.operation).value] == Join then Cfg.None else context;
      Beside(Lower(h, ps, s, context, answer, st).0, clause, Lower(h, ps, s.next, around, answer, after).0)
    ensures var around := if ps[Find(h.clauses, s.operation).value] == Join then Cfg.None else context';
      Beside(Lower(h, ps, s', context', answer', st).0, clause, Lower(h, ps, s'.next, around, answer', after).0)
  {
    var i := Find(h.clauses, s.operation).value;
    var c, policy := h.clauses[i], ps[i];
    assert c in h.clauses;
    var entered := ClauseContext(c, policy, s.answer, s.next, answer, context, st);
    var entered' := ClauseContext(c, policy, s'.answer, s'.next, answer', context', st);
    LowersAlike(h, ps, c.body, entered, entered', Yield, Yield, Reserve(policy, st));
    PerformFinishes(h, ps, s, context, answer, st);
    PerformFinishes(h, ps, s', context', answer', st);
    var lowered := Lower(h, ps, c.body, entered, Yield, Reserve(policy, st));
    after := lowered.1;
    clause := BindParams(c.params, s.args, PairedArgs(c.params, s.args), lowered.0);
    var _ := RestOf(h, ps, policy, s, context, answer, st.nextResumption, clause, after);
    var _ := RestOf(h, ps, policy, s', context', answer', st.nextResumption, clause, after);
  }

  /** A clause that resumes in several places is spliced in, a copy of what it resumes for each, only if one path
      may resume twice or the places need different variables of the clause. */
  lemma SeveralSitesKeepOneCopy(h: Handler, s: Stmt, context: Option<Context>, answer: Answer, s': Stmt,
      context': Option<Context>, answer': Answer, st: State)
    returns (clause: Graph, after: State)
    requires Answerable(h) && s.Perform? && s.effect == h.effect && Find(h.clauses, s.operation).Some?
    requires s'.Perform? && s'.effect == s.effect && s'.operation == s.operation && s'.args == s.args
    requires var c := h.clauses[Find(h.clauses, s.operation).value];
      && c.resumeParam.Some? && Sites(c.body, c.resumeParam.value) > 1
      && (TailResumptive(c.body, c.resumeParam.value)
          || (Uses(c.body, c.resumeParam.value).max != Many && Defunctionalisable(c)))
    ensures var ps, tail := ChosenPolicies(h), TailResumptive(h.clauses[Find(h.clauses, s.operation).value].body,
        h.clauses[Find(h.clauses, s.operation).value].resumeParam.value);
      && Beside(Lower(h, ps, s, context, answer, st).0, clause,
           Lower(h, ps, s.next, if tail then Cfg.None else context, answer, after).0)
      && Beside(Lower(h, ps, s', context', answer', st).0, clause,
           Lower(h, ps, s'.next, if tail then Cfg.None else context', answer', after).0)
  {
    clause, after := ClauseIsApart(h, ChosenPolicies(h), s, context, answer, s', context', answer', st);
  }

  /** A value whose code performs and resumes nothing is joined: what follows it is lowered once, after it, and
      its own code does not depend on that. */
  lemma QuietValueIsJoined(h: Handler, ps: seq<Policy>, s: Stmt, context: Option<Context>, answer: Answer,
      s': Stmt, answer': Answer, st: State)
    returns (value: Graph, after: State)
    requires Answerable(h) && |ps| == |h.clauses| && s.Val? && !Performs(s.graph, h.effect)
    requires context.Some? ==> !Resumes(s.graph, context.value.resume)
    requires s'.Val? && s'.binding == s.binding && s'.graph == s.graph
    ensures Beside(Lower(h, ps, s, context, answer, st).0, value, Lower(h, ps, s.next, context, answer, after).0)
    ensures Beside(Lower(h, ps, s', context, answer', st).0, value, Lower(h, ps, s'.next, context, answer', after).0)
  {
    var lowered := Lower(h, ps, s.graph, context, Yield, st);
    value, after := lowered.0, lowered.1;
  }
}
