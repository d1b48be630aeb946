/** Erasure keeps the meaning of a handled body: for single-shot clauses and distinct binders the
    lowered graph gives the value and the trace the handler's continuation-passing reading gives. */
module ErasureMeaning {
  import Cfg
  import opened Core
  import opened ClauseAnalysis
  import opened Linear
  import opened Erasure

  /** What one lowering is done with; variables from `limit` on are the lowering's own. */
  datatype Setting = Setting(w: World, h: Handler, ps: seq<Policy>, limit: VarId)

  // ---------------------------------------------------------------- what a handler may be

  /** The strategy suits the clause: a join needs every path to end in its `resume`. */
  predicate Suits(c: Clause, policy: Policy) {
    match policy
    case Inline => true
    case Join => c.resumeParam.Some? && TailResumptive(c.body, c.resumeParam.value)
    case Defunctionalise => c.resumeParam.Some?
  }

  predicate SingleShot(c: Clause) {
    && ResumesOnly(c.body, c.resumeParam)
    && (c.resumeParam.Some? ==> Uses(c.body, c.resumeParam.value).max != Many)
  }

  predicate Erasable(h: Handler, ps: seq<Policy>) {
    && Answerable(h) && |ps| == |h.clauses|
    && ResumesOnly(h.returnBody, Cfg.None)
    && forall i :: 0 <= i < |ps| ==> SingleShot(h.clauses[i]) && Tidy(h.clauses[i].body) && Suits(h.clauses[i], ps[i])
  }

  /** Every perform of the effect finds a clause that takes as many arguments. */
  predicate Discharged(h: Handler, s: Stmt) {
    match s
    case Return(_) => true
    case Let(_, _, next) => Discharged(h, next)
    case Val(_, graph, next) => Discharged(h, graph) && Discharged(h, next)
    case Call(_, _, _, next) => Discharged(h, next)
    case If(_, x, y) => Discharged(h, x) && Discharged(h, y)
    case Perform(_, effect, operation, args, next) =>
      && Discharged(h, next)
      && (effect == h.effect ==>
          Find(h.clauses, operation).Some? && |h.clauses[Find(h.clauses, operation).value].params| == |args|)
    case Resume(_, _, _, next) => Discharged(h, next)
    case Match(_, _, _) => forall b :: b in Branches(s) ==> Discharged(h, b)
  }

  /** What a spliced clause may bind. */
  function ClauseBinders(h: Handler): set<VarId> {
    set i, v | 0 <= i < |h.clauses| && v in Binders(h.clauses[i].body) + Names(h.clauses[i].params) :: v
  }

  /** What a return under this answer still needs. */
  function Pending(h: Handler, a: Answer): set<VarId> {
    match a
    case Yield => {}
    case HandlerReturn => HomeReads(h)
    case Bind(b, next, _, outer) => (Free(next) - {b}) + Pending(h, outer)
  }

  // ---------------------------------------------------------------- answers as continuations

  /** The graph a return under `a` goes on to, run with the returned value. */
  ghost function Go(z: Setting, a: Answer, st: State, env: Env, open: Open, v: Value, t: Trace): Outcome
    requires Erasable(z.h, z.ps)
  {
    match a
    case Yield => Outcome(v, t)
    case HandlerReturn => Run(z.w, Plain(z.h.returnBody), env[z.h.returnParam := v], open, t)
    case Bind(b, next, context, outer) => Run(z.w, Lower(z.h, z.ps, next, context, outer, st).0, env[b := v], open, t)
  }

  /** However it is lowered, and wherever from, the answer is the continuation `k`, as long as what
      it needs is as it was in `base` and no match is left without an arm. */
  ghost predicate Means(z: Setting, a: Answer, base: Env, k: Continuation)
    requires Erasable(z.h, z.ps)
  {
    forall st: State, env: Env, open: Open, v: Value, t: Trace {:trigger Go(z, a, st, env, open, v, t)} ::
      st.nextVar >= z.limit && Agree(env, base, Pending(z.h, a)) && Matched(k(v, t).trace) ==>
        Go(z, a, st, env, open, v, t) == k(v, t)
  }

  /** The continuation spliced at a `resume`, run with the resumption's argument. */
  ghost function Spliced(z: Setting, c: Context, st: State, env: Env, open: Open, v: Value, t: Trace): Outcome
    requires Erasable(z.h, z.ps)
  {
    Run(z.w, Lower(z.h, z.ps, c.continuation, c.outer, c.answer, st).0, BindOption(env, c.performed, v), open, t)
  }

  function Kept(z: Setting, c: Context): set<VarId> {
    (Free(c.continuation) - OptionSet(c.performed)) + Pending(z.h, c.answer)
  }

  ghost predicate Continues(z: Setting, c: Context, base: Env, k: Continuation)
    requires Erasable(z.h, z.ps)
  {
    forall st: State, env: Env, open: Open, v: Value, t: Trace {:trigger Spliced(z, c, st, env, open, v, t)} ::
      st.nextVar >= z.limit && Agree(env, base, Kept(z, c)) && Matched(k(v, t).trace) ==>
        Spliced(z, c, st, env, open, v, t) == k(v, t)
  }

  ghost predicate Shared(open: Open, id: ResumptionId, k: Continuation) {
    id in open && forall v, t :: Matched(k(v, t).trace) ==> open[id](v, t) == k(v, t)
  }

  // ---------------------------------------------------------------- environments

  lemma AgreeUpdate(a: Env, b: Env, vars: set<VarId>, x: VarId, value: Value)
    requires Agree(a, b, vars) && x !in vars
    ensures Agree(a[x := value], b, vars)
  {}

  lemma AgreeUpdateOption(a: Env, b: Env, vars: set<VarId>, x: Option<VarId>, value: Value)
    requires Agree(a, b, vars) && OptionSet(x) !! vars
    ensures Agree(BindOption(a, x, value), b, vars)
  {}

  lemma {:induction false} ParamsRun(w: World, params: seq<VarId>, args: seq<Expr>, n: nat, g: Graph, env: Env,
      open: Open, t: Trace)
    requires n <= |params| && n <= |args| && Names(params) !! ReadsOfAll(args)
    ensures Run(w, BindParams(params, args, n, g), env, open, t)
         == Run(w, g, BindAll(env, params, EvalAll(w, args, env), n), open, t)
    decreases n
  {
    if n > 0 {
      var values := EvalAll(w, args, env);
      ParamsRun(w, params, args, n - 1, Graph.Let(params[n - 1], args[n - 1], g), env, open, t);
      AgreeOutside(env, env, ReadsOfAll(args), params, values, n - 1);
      assert Reads(args[n - 1]) <= ReadsOfAll(args);
      EvalAgrees(w, args[n - 1], BindAll(env, params, values, n - 1), env);
    }
  }

  // ---------------------------------------------------------------- clauses

  /** Inside a clause, `resume` reaches the continuation `k`: by splicing it in, or by a jump. */
  ghost predicate Reaches(z: Setting, c: Context, k: Continuation, linear: Env, base: Env, open: Open,
      binders: set<VarId>)
    requires Erasable(z.h, z.ps)
  {
    && c.policy != Join
    && (if c.resumption.Some? then Shared(open, c.resumption.value, k)
        else Continues(z, c, base, k) && Agree(linear, base, Kept(z, c)) && binders !! Kept(z, c))
  }

  /** The code resumes only its own clause, at most once, and only where that is possible. */
  ghost predicate MayResume(z: Setting, s: Stmt, context: Option<Context>, k: Continuation, linear: Env, base: Env,
      open: Open)
    requires Erasable(z.h, z.ps)
  {
    Extends(k) && (ResumesOnly(s, Cfg.None) ||
    (context.Some? && ResumesOnly(s, Cfg.Some(context.value.resume)) && Uses(s, context.value.resume).max != Many
     && Reaches(z, context.value, k, linear, base, open, Binders(s))))
  }

  /** Clause code under an answer: its value goes on to what the answer means. */
  ghost predicate ClauseFits(z: Setting, s: Stmt, answer: Answer, st: State, env: Env, linear: Env, pending: Env,
      k: Continuation)
    requires Erasable(z.h, z.ps)
  {
    && st.nextVar >= z.limit && !Performs(s, z.h.effect) && Tidy(s) && !answer.HandlerReturn?
    && Agree(linear, env, Free(s)) && Agree(linear, pending, Pending(z.h, answer)) && Binders(s) !! Pending(z.h, answer)
    && Means(z, answer, pending, k) && Extends(k)
  }

  lemma MeansYield(z: Setting, base: Env)
    requires Erasable(z.h, z.ps)
    ensures Means(z, Yield, base, Stop())
  {}

  lemma {:induction false} NoResume(s: Stmt, k: VarId)
    requires ResumesOnly(s, Cfg.None)
    ensures !Resumes(s, k)
  {
    match s
    case Return(_) =>
    case Let(_, _, next) => NoResume(next, k);
    case Val(_, graph, next) => NoResume(graph, k); NoResume(next, k);
    case Call(_, _, _, next) => NoResume(next, k);
    case If(_, x, y) => NoResume(x, k); NoResume(y, k);
    case Perform(_, _, _, _, next) => NoResume(next, k);
    case Resume(_, _, _, _) =>
    case Match(_, _, _) =>
      forall b | b in Branches(s) ensures !Resumes(b, k) { NoResume(b, k); }
  }

  /** `next` comes after `s`, with `x` bound in between. */
  predicate Follows(s: Stmt, x: Option<VarId>, next: Stmt) {
    match s
    case Let(b, _, n) => next == n && x == Cfg.Some(b)
    case Val(b, _, n) => next == n && x == Cfg.Some(b)
    case Call(r, _, _, n) => next == n && x == Cfg.Some(r)
    case Perform(r, _, _, _, n) => next == n && x == r
    case Resume(r, _, _, n) => next == n && x == Cfg.Some(r)
    case _ => false
  }

  lemma FollowsReads(s: Stmt, x: Option<VarId>, next: Stmt)
    requires Follows(s, x, next)
    ensures Free(next) - OptionSet(x) <= Free(s) && Binders(next) + OptionSet(x) <= Binders(s)
  {}

  lemma StepFits(z: Setting, s: Stmt, x: Option<VarId>, next: Stmt, v: Value, answer: Answer, st: State, env: Env,
      linear: Env, pending: Env, k: Continuation)
    requires Erasable(z.h, z.ps) && ClauseFits(z, s, answer, st, env, linear, pending, k) && Follows(s, x, next)
    ensures ClauseFits(z, next, answer, st, BindOption(env, x, v), BindOption(linear, x, v), pending, k)
  {
    FollowsReads(s, x, next);
    AgreeBindOption(linear, env, Free(next), x, v);
    AgreeUpdateOption(linear, pending, Pending(z.h, answer), x, v);
  }

  lemma StepMay(z: Setting, s: Stmt, x: Option<VarId>, next: Stmt, v: Value, context: Option<Context>,
      k: Continuation, linear: Env, base: Env, open: Open)
    requires Erasable(z.h, z.ps) && MayResume(z, s, context, k, linear, base, open) && Follows(s, x, next)
    ensures MayResume(z, next, context, k, BindOption(linear, x, v), base, open)
  {
    FollowsReads(s, x, next);
    if !ResumesOnly(s, Cfg.None) && context.value.resumption.None? {
      AgreeUpdateOption(linear, base, Kept(z, context.value), x, v);
    }
  }

  lemma {:induction false} ClauseRuns(z: Setting, s: Stmt, context: Option<Context>, answer: Answer, st: State,
      env: Env, linear: Env, pending: Env, k: Continuation, base: Env, resumption: Continuation, open: Open, t: Trace)
    requires Erasable(z.h, z.ps) && ClauseFits(z, s, answer, st, env, linear, pending, k)
    requires MayResume(z, s, context, resumption, linear, base, open)
    requires var o := Direct(z.w, s, env, resumption, t); Matched(k(o.value, o.trace).trace)
    ensures var o := Direct(z.w, s, env, resumption, t);
      Run(z.w, Lower(z.h, z.ps, s, context, answer, st).0, linear, open, t) == k(o.value, o.trace)
    decreases s, 1
  {
    match s
    case Return(e) =>
      EvalAgrees(z.w, e, linear, env);
      var v := Eval(z.w, e, env);
      assert Go(z, answer, st, linear, open, v, t) == k(v, t);
    case Let(b, e, next) =>
      EvalAgrees(z.w, e, linear, env);
      var v := Eval(z.w, e, env);
      StepFits(z, s, Cfg.Some(b), next, v, answer, st, env, linear, pending, k);
      StepMay(z, s, Cfg.Some(b), next, v, context, resumption, linear, base, open);
      ClauseRuns(z, next, context, answer, st, env[b := v], linear[b := v], pending, k, base, resumption, open, t);
    case Call(_, _, _, _) =>
      ClauseEventRuns(z, s, context, answer, st, env, linear, pending, k, base, resumption, open, t);
    case Perform(_, _, _, _, _) =>
      ClauseEventRuns(z, s, context, answer, st, env, linear, pending, k, base, resumption, open, t);
    case If(_, _, _) => ClauseIfRuns(z, s, context, answer, st, env, linear, pending, k, base, resumption, open, t);
    case Val(_, _, _) => ValRuns(z, s, context, answer, st, env, linear, pending, k, base, resumption, open, t);
    case Resume(_, _, _, _) =>
      ResumeRuns(z, s, context.value, answer, st, env, linear, pending, k, base, resumption, open, t);
    case Match(_, _, _) =>
      ClauseMatchRuns(z, s, context, answer, st, env, linear, pending, k, base, resumption, open, t);
  }

  // ---------------------------------------------------------------- matches

  lemma {:induction false} CaseLowered(h: Handler, ps: seq<Policy>, s: Stmt, n: nat, i: nat, context: Option<Context>,
      answer: Answer, st: State) returns (later: State)
    requires Answerable(h) && |ps| == |h.clauses| && s.Match? && i < n <= |s.cases|
    ensures later.nextVar >= st.nextVar
    ensures LowerCases(h, ps, s, n, context, answer, st).0[i]
         == Arm(s.cases[i].tag, s.cases[i].binders, Lower(h, ps, s.cases[i].body, context, answer, later).0)
  {
    if i == n - 1 {
      later := LowerCases(h, ps, s, n - 1, context, answer, st).1;
    } else {
      later := CaseLowered(h, ps, s, n - 1, i, context, answer, st);
    }
  }

  /** The arms of a lowered match are its cases lowered one after the other. */
  lemma MatchLowered(h: Handler, ps: seq<Policy>, s: Stmt, context: Option<Context>, answer: Answer, st: State,
      v: Value) returns (later: State)
    requires Answerable(h) && |ps| == |h.clauses| && s.Match?
    ensures later.nextVar >= st.nextVar
    ensures var g := Lower(h, ps, s, context, answer, st).0;
      && g.Match? && g.scrutinee == s.scrutinee && ArmsMatch(s.cases, g.arms) && g.default.Some? == s.default.Some?
      && (Selected(s, v).Some? ==>
           var i := Selected(s, v).value; g.arms[i].body == Lower(h, ps, s.cases[i].body, context, answer, later).0)
      && (Selected(s, v).None? && s.default.Some? ==>
        g.default.value == Lower(h, ps, s.default.value, context, answer, later).0)
  {
    forall i | 0 <= i < |s.cases|
      ensures var arm := LowerCases(h, ps, s, |s.cases|, context, answer, st).0[i];
        arm.tag == s.cases[i].tag && arm.binders == s.cases[i].binders
    {
      var later := CaseLowered(h, ps, s, |s.cases|, i, context, answer, st);
    }
    if Selected(s, v).Some? {
      later := CaseLowered(h, ps, s, |s.cases|, Selected(s, v).value, context, answer, st);
    } else {
      later := LowerCases(h, ps, s, |s.cases|, context, answer, st).1;
    }
  }

  /** A match without an arm shows in whatever comes after it. */
  lemma UnmatchedShows(k: Continuation, v: Value, t: Trace)
    requires Extends(k)
    ensures !Matched(k(v, t + [Unmatched]).trace)
  {
    var u := t + [Unmatched];
    assert u <= k(v, u).trace && u[|t|] == Unmatched;
  }

  lemma {:induction false} ClauseMatchRuns(z: Setting, s: Stmt, context: Option<Context>, answer: Answer, st: State,
      env: Env, linear: Env, pending: Env, k: Continuation, base: Env, resumption: Continuation, open: Open, t: Trace)
    requires Erasable(z.h, z.ps) && ClauseFits(z, s, answer, st, env, linear, pending, k) && s.Match?
    requires MayResume(z, s, context, resumption, linear, base, open)
    requires var o := Direct(z.w, s, env, resumption, t); Matched(k(o.value, o.trace).trace)
    ensures var o := Direct(z.w, s, env, resumption, t);
      Run(z.w, Lower(z.h, z.ps, s, context, answer, st).0, linear, open, t) == k(o.value, o.trace)
    decreases s, 0
  {
    var (taken, inside) := Taken(z.w, s, env);
    if taken.None? {
      UnmatchedShows(k, Cfg.Unit, t);
    } else {
      var v := Eval(z.w, s.scrutinee, env);
      var later := MatchLowered(z.h, z.ps, s, context, answer, st, v);
      var branch, inner := MatchRuns(z.w, s, Lower(z.h, z.ps, s, context, answer, st).0, env, linear, open, t);
      CaseFits(z, s, taken.value, v, context, answer, st, later, env, linear, pending, k, base, resumption, open);
      ClauseRuns(z, taken.value, context, answer, later, inside, inner, pending, k, base, resumption, open, t);
    }
  }

  /** The branch of a match finds all it needs. */
  lemma CaseFits(z: Setting, s: Stmt, branch: Stmt, v: Value, context: Option<Context>, answer: Answer, st: State,
      later: State, env: Env, linear: Env, pending: Env, k: Continuation, base: Env, resumption: Continuation,
      open: Open)
    requires Erasable(z.h, z.ps) && ClauseFits(z, s, answer, st, env, linear, pending, k) && s.Match?
    requires MayResume(z, s, context, resumption, linear, base, open) && later.nextVar >= st.nextVar
    requires v == Eval(z.w, s.scrutinee, env) && Taken(z.w, s, env).0 == Cfg.Some(branch)
    ensures ClauseFits(z, branch, answer, later, Taken(z.w, s, env).1, Entered(s, v, linear), pending, k)
    ensures MayResume(z, branch, context, resumption, Entered(s, v, linear), base, open)
  {
    BranchBinders(s, branch);
    TakenAgrees(z.w, s, linear, env);
    EnteredOutside(s, v, linear, pending, Pending(z.h, answer));
    if !ResumesOnly(s, Cfg.None) {
      BranchUses(s, context.value.resume, branch);
      if context.value.resumption.None? { EnteredOutside(s, v, linear, base, Kept(z, context.value)); }
    }
  }

  lemma {:induction false} ClauseIfRuns(z: Setting, s: Stmt, context: Option<Context>, answer: Answer, st: State,
      env: Env, linear: Env, pending: Env, k: Continuation, base: Env, resumption: Continuation, open: Open, t: Trace)
    requires Erasable(z.h, z.ps) && ClauseFits(z, s, answer, st, env, linear, pending, k) && s.If?
    requires MayResume(z, s, context, resumption, linear, base, open)
    requires var o := Direct(z.w, s, env, resumption, t); Matched(k(o.value, o.trace).trace)
    ensures var o := Direct(z.w, s, env, resumption, t);
      Run(z.w, Lower(z.h, z.ps, s, context, answer, st).0, linear, open, t) == k(o.value, o.trace)
    decreases s, 0
  {
    var branch, later := IfTakes(z, s, context, answer, st, env, linear, open, t);
    IfFits(z, s, branch, context, answer, st, later, env, linear, pending, k, base, resumption, open);
    ClauseRuns(z, branch, context, answer, later, env, linear, pending, k, base, resumption, open, t);
  }

  /** The branch an `If` takes, as it stands and lowered. */
  lemma IfTakes(z: Setting, s: Stmt, context: Option<Context>, answer: Answer, st: State, env: Env, linear: Env,
      open: Open, t: Trace) returns (branch: Stmt, later: State)
    requires Erasable(z.h, z.ps) && s.If? && Agree(linear, env, Free(s))
    ensures branch == (if IsTrue(Eval(z.w, s.cond, env)) then s.thenBranch else s.elseBranch)
    ensures later.nextVar >= st.nextVar
    ensures Run(z.w, Lower(z.h, z.ps, s, context, answer, st).0, linear, open, t)
      == Run(z.w, Lower(z.h, z.ps, branch, context, answer, later).0, linear, open, t)
  {
    EvalAgrees(z.w, s.cond, linear, env);
    if IsTrue(Eval(z.w, s.cond, env)) {
      branch, later := s.thenBranch, st;
    } else {
      branch, later := s.elseBranch, Lower(z.h, z.ps, s.thenBranch, context, answer, st).1;
    }
  }

  /** And it finds all it needs. */
  lemma IfFits(z: Setting, s: Stmt, branch: Stmt, context: Option<Context>, answer: Answer, st: State, later: State,
      env: Env, linear: Env, pending: Env, k: Continuation, base: Env, resumption: Continuation, open: Open)
    requires Erasable(z.h, z.ps) && ClauseFits(z, s, answer, st, env, linear, pending, k) && s.If?
    requires MayResume(z, s, context, resumption, linear, base, open) && later.nextVar >= st.nextVar
    requires branch == s.thenBranch || branch == s.elseBranch
    ensures ClauseFits(z, branch, answer, later, env, linear, pending, k)
    ensures MayResume(z, branch, context, resumption, linear, base, open)
  {}

  lemma {:induction false} ClauseEventRuns(z: Setting, s: Stmt, context: Option<Context>, answer: Answer, st: State,
      env: Env, linear: Env, pending: Env, k: Continuation, base: Env, resumption: Continuation, open: Open, t: Trace)
    requires Erasable(z.h, z.ps) && ClauseFits(z, s, answer, st, env, linear, pending, k) && (s.Call? || s.Perform?)
    requires MayResume(z, s, context, resumption, linear, base, open)
    requires var o := Direct(z.w, s, env, resumption, t); Matched(k(o.value, o.trace).trace)
    ensures var o := Direct(z.w, s, env, resumption, t);
      Run(z.w, Lower(z.h, z.ps, s, context, answer, st).0, linear, open, t) == k(o.value, o.trace)
    decreases s, 0
  {
    EvalAllAgrees(z.w, s.args, linear, env);
    var x := if s.Call? then Cfg.Some(s.result) else s.answer;
    var values := EvalAll(z.w, s.args, env);
    var event := if s.Call? then Called(s.callee, values) else Performed(s.effect, s.operation, values);
    var v := z.w.answer(t, event);
    StepFits(z, s, x, s.next, v, answer, st, env, linear, pending, k);
    StepMay(z, s, x, s.next, v, context, resumption, linear, base, open);
    ClauseRuns(z, s.next, context, answer, st, BindOption(env, x, v), BindOption(linear, x, v), pending, k, base,
      resumption, open, t + [event]);
  }

  lemma {:induction false} ValRuns(z: Setting, s: Stmt, context: Option<Context>, answer: Answer, st: State, env: Env,
      linear: Env, pending: Env, k: Continuation, base: Env, resumption: Continuation, open: Open, t: Trace)
    requires Erasable(z.h, z.ps) && ClauseFits(z, s, answer, st, env, linear, pending, k) && s.Val?
    requires MayResume(z, s, context, resumption, linear, base, open)
    requires var o := Direct(z.w, s, env, resumption, t); Matched(k(o.value, o.trace).trace)
    ensures var o := Direct(z.w, s, env, resumption, t);
      Run(z.w, Lower(z.h, z.ps, s, context, answer, st).0, linear, open, t) == k(o.value, o.trace)
    decreases s, 0
  {
    if Splices(z.h, s.graph, context) {
      ValThreads(z, s, context, answer, st, env, linear, pending, k, base, resumption, open, t);
    } else {
      ValJoins(z, s, context, answer, st, env, linear, pending, k, base, resumption, open, t);
    }
  }

  /** The code after the `Val` is threaded into its graph. */
  lemma {:induction false} ValThreads(z: Setting, s: Stmt, context: Option<Context>, answer: Answer, st: State,
      env: Env, linear: Env, pending: Env, k: Continuation, base: Env, resumption: Continuation, open: Open, t: Trace)
    requires Erasable(z.h, z.ps) && ClauseFits(z, s, answer, st, env, linear, pending, k) && s.Val?
    requires MayResume(z, s, context, resumption, linear, base, open) && Splices(z.h, s.graph, context)
    requires var o := Direct(z.w, s, env, resumption, t); Matched(k(o.value, o.trace).trace)
    ensures var o := Direct(z.w, s, env, resumption, t);
      Run(z.w, Lower(z.h, z.ps, s, context, answer, st).0, linear, open, t) == k(o.value, o.trace)
    decreases s, 0, 1
  {
    var Val(b, graph, next) := s;
    if ResumesOnly(graph, Cfg.None) { NoResume(graph, context.value.resume); }
    ValBinds(z, s, context, answer, st, env, linear, pending, k, base, resumption, open);
    ClauseRuns(z, graph, context, Bind(b, next, context, answer), st, env, linear, linear,
      After(z.w, b, next, env, resumption, k), base, resumption, open, t);
  }

  /** The code after the `Val` is joined after its graph. */
  lemma {:induction false} ValJoins(z: Setting, s: Stmt, context: Option<Context>, answer: Answer, st: State,
      env: Env, linear: Env, pending: Env, k: Continuation, base: Env, resumption: Continuation, open: Open, t: Trace)
    requires Erasable(z.h, z.ps) && ClauseFits(z, s, answer, st, env, linear, pending, k) && s.Val?
    requires MayResume(z, s, context, resumption, linear, base, open) && !Splices(z.h, s.graph, context)
    requires var o := Direct(z.w, s, env, resumption, t); Matched(k(o.value, o.trace).trace)
    ensures var o := Direct(z.w, s, env, resumption, t);
      Run(z.w, Lower(z.h, z.ps, s, context, answer, st).0, linear, open, t) == k(o.value, o.trace)
    decreases s, 0, 1
  {
    var Val(b, graph, next) := s;
    var o := Direct(z.w, graph, env, resumption, t);
    ValGraphRuns(z, s, context, answer, st, env, linear, pending, k, base, resumption, open, t);
    var st1 := Lower(z.h, z.ps, graph, context, Yield, st).1;
    StepFits(z, s, Cfg.Some(b), next, o.value, answer, st, env, linear, pending, k);
    StepMay(z, s, Cfg.Some(b), next, o.value, context, resumption, linear, base, open);
    ClauseRuns(z, next, context, answer, st1, env[b := o.value], linear[b := o.value], pending, k, base, resumption,
      open, o.trace);
  }

  lemma {:induction false} ValGraphRuns(z: Setting, s: Stmt, context: Option<Context>, answer: Answer, st: State,
      env: Env, linear: Env, pending: Env, k: Continuation, base: Env, resumption: Continuation, open: Open, t: Trace)
    requires Erasable(z.h, z.ps) && ClauseFits(z, s, answer, st, env, linear, pending, k) && s.Val?
    requires MayResume(z, s, context, resumption, linear, base, open) && !Splices(z.h, s.graph, context)
    requires var o := Direct(z.w, s, env, resumption, t); Matched(k(o.value, o.trace).trace)
    ensures Run(z.w, Lower(z.h, z.ps, s.graph, context, Yield, st).0, linear, open, t)
      == Direct(z.w, s.graph, env, resumption, t)
    decreases s, 0, 0
  {
    ValMatched(z.w, s, env, resumption, k, t);
    MeansYield(z, linear);
    ClauseRuns(z, s.graph, context, Yield, st, env, linear, linear, Stop(), base, resumption, open, t);
  }

  /** If no match is left without an arm in all, none is in a `Val`'s graph. */
  lemma ValMatched(w: World, s: Stmt, env: Env, resumption: Continuation, k: Continuation, t: Trace)
    requires s.Val? && Extends(resumption) && Extends(k)
    requires var o := Direct(w, s, env, resumption, t); Matched(k(o.value, o.trace).trace)
    ensures Matched(Direct(w, s.graph, env, resumption, t).trace)
  {
    var o := Direct(w, s.graph, env, resumption, t);
    var p := Direct(w, s, env, resumption, t);
    DirectExtends(w, s.next, env[s.binding := o.value], resumption, o.trace);
    MatchedBefore(p.trace, k(p.value, p.trace).trace);
    MatchedBefore(o.trace, p.trace);
  }

  lemma AfterExtends(w: World, b: VarId, next: Stmt, env: Env, resumption: Continuation, k: Continuation)
    requires Extends(resumption) && Extends(k)
    ensures Extends(After(w, b, next, env, resumption, k))
  {
    forall v: Value, t: Trace ensures t <= After(w, b, next, env, resumption, k)(v, t).trace {
      DirectExtends(w, next, env[b := v], resumption, t);
      var o := Direct(w, next, env[b := v], resumption, t);
      assert o.trace <= k(o.value, o.trace).trace;
    }
  }

  /** The clause code after a `Val`, then `k`. */
  ghost function After(w: World, b: VarId, next: Stmt, env: Env, resumption: Continuation,
      k: Continuation): Continuation {
    (v: Value, t: Trace) => var o := Direct(w, next, env[b := v], resumption, t); k(o.value, o.trace)
  }

  lemma {:induction false} ValBinds(z: Setting, s: Stmt, context: Option<Context>, answer: Answer, st: State,
      env: Env, linear: Env, pending: Env, k: Continuation, base: Env, resumption: Continuation, open: Open)
    requires Erasable(z.h, z.ps) && ClauseFits(z, s, answer, st, env, linear, pending, k) && s.Val?
    requires MayResume(z, s, context, resumption, linear, base, open) && context.Some?
      && Resumes(s.graph, context.value.resume)
    ensures ClauseFits(z, s.graph, Bind(s.binding, s.next, context, answer), st, env, linear, linear,
      After(z.w, s.binding, s.next, env, resumption, k))
    ensures MayResume(z, s.graph, context, resumption, linear, base, open)
    decreases s, 0, 0
  {
    var Val(b, graph, next) := s;
    var frame, after := Bind(b, next, context, answer), After(z.w, b, next, env, resumption, k);
    NoUseNoSite(graph, context.value.resume);
    NoUseNoSite(next, context.value.resume);
    if ResumesOnly(s, Cfg.None) { NoResume(graph, context.value.resume); }
    ResumesNothing(next, context.value.resume);
    AfterExtends(z.w, b, next, env, resumption, k);
    assert Means(z, frame, linear, after) by {
      forall st1: State, env1: Env, open1: Open, v: Value, t: Trace | st1.nextVar >= z.limit
        && Agree(env1, linear, Pending(z.h, frame)) && Matched(after(v, t).trace)
        ensures Go(z, frame, st1, env1, open1, v, t) == after(v, t)
      {
        FrameFits(z, s, context, answer, st, st1, env, linear, env1, pending, k, v);
        ClauseRuns(z, next, context, answer, st1, env[b := v], env1[b := v], pending, k, base, resumption, open1, t);
      }
    }
  }

  /** The code a `Val` frame holds still finds all it needs. */
  lemma FrameFits(z: Setting, s: Stmt, context: Option<Context>, answer: Answer, st: State, later: State, env: Env,
      linear: Env, now: Env, pending: Env, k: Continuation, v: Value)
    requires Erasable(z.h, z.ps) && ClauseFits(z, s, answer, st, env, linear, pending, k) && s.Val?
    requires later.nextVar >= z.limit && Agree(now, linear, Pending(z.h, Bind(s.binding, s.next, context, answer)))
    ensures ClauseFits(z, s.next, answer, later, env[s.binding := v], now[s.binding := v], pending, k)
  {
    AgreeBind(now, env, Free(s.next), s.binding, v);
    AgreeUpdate(now, pending, Pending(z.h, answer), s.binding, v);
  }

  /** Nor is one in what a `resume` ran. */
  lemma ResumeMatched(w: World, s: Stmt, env: Env, resumption: Continuation, k: Continuation, t: Trace)
    requires s.Resume? && Extends(resumption) && Extends(k)
    requires var o := Direct(w, s, env, resumption, t); Matched(k(o.value, o.trace).trace)
    ensures Matched(resumption(Eval(w, s.arg, env), t).trace)
  {
    var o := resumption(Eval(w, s.arg, env), t);
    var p := Direct(w, s, env, resumption, t);
    DirectExtends(w, s.next, env[s.result := o.value], resumption, o.trace);
    MatchedBefore(p.trace, k(p.value, p.trace).trace);
    MatchedBefore(o.trace, p.trace);
  }

  lemma {:induction false} ResumeRuns(z: Setting, s: Stmt, c: Context, answer: Answer, st: State, env: Env,
      linear: Env, pending: Env, k: Continuation, base: Env, resumption: Continuation, open: Open, t: Trace)
    requires Erasable(z.h, z.ps) && ClauseFits(z, s, answer, st, env, linear, pending, k) && s.Resume?
    requires MayResume(z, s, Cfg.Some(c), resumption, linear, base, open)
    requires var o := Direct(z.w, s, env, resumption, t); Matched(k(o.value, o.trace).trace)
    ensures var o := Direct(z.w, s, env, resumption, t);
      Run(z.w, Lower(z.h, z.ps, s, Cfg.Some(c), answer, st).0, linear, open, t) == k(o.value, o.trace)
    decreases s, 0
  {
    if c.resumption.Some? {
      JumpRuns(z, s, c, answer, st, env, linear, pending, k, base, resumption, open, t);
    } else {
      SplicedRuns(z, s, c, answer, st, env, linear, pending, k, base, resumption, open, t);
    }
  }

  /** A jump into the shared continuation, then the code after the `resume`. */
  lemma {:induction false} JumpRuns(z: Setting, s: Stmt, c: Context, answer: Answer, st: State, env: Env, linear: Env,
      pending: Env, k: Continuation, base: Env, resumption: Continuation, open: Open, t: Trace)
    requires Erasable(z.h, z.ps) && ClauseFits(z, s, answer, st, env, linear, pending, k) && s.Resume?
    requires MayResume(z, s, Cfg.Some(c), resumption, linear, base, open) && c.resumption.Some?
    requires var o := Direct(z.w, s, env, resumption, t); Matched(k(o.value, o.trace).trace)
    ensures var o := Direct(z.w, s, env, resumption, t);
      Run(z.w, Lower(z.h, z.ps, s, Cfg.Some(c), answer, st).0, linear, open, t) == k(o.value, o.trace)
    decreases s, 0, 0
  {
    var Resume(r, name, arg, next) := s;
    EvalAgrees(z.w, arg, linear, env);
    NoUseNoSite(next, c.resume);
    ResumesNothing(next, c.resume);
    var o := resumption(Eval(z.w, arg, env), t);
    ResumeMatched(z.w, s, env, resumption, k, t);
    StepFits(z, s, Cfg.Some(r), next, o.value, answer, st, env, linear, pending, k);
    ClauseRuns(z, next, Cfg.None, answer, st.TakeLabel(c.resumption.value), env[r := o.value], linear[r := o.value],
      pending, k, base, resumption, open, o.trace);
  }

  /** The continuation spliced in at the `resume`, then the code after it. */
  lemma {:induction false} SplicedRuns(z: Setting, s: Stmt, c: Context, answer: Answer, st: State, env: Env,
      linear: Env, pending: Env, k: Continuation, base: Env, resumption: Continuation, open: Open, t: Trace)
    requires Erasable(z.h, z.ps) && ClauseFits(z, s, answer, st, env, linear, pending, k) && s.Resume?
    requires MayResume(z, s, Cfg.Some(c), resumption, linear, base, open) && c.resumption.None?
    requires var o := Direct(z.w, s, env, resumption, t); Matched(k(o.value, o.trace).trace)
    ensures var o := Direct(z.w, s, env, resumption, t);
      Run(z.w, Lower(z.h, z.ps, s, Cfg.Some(c), answer, st).0, linear, open, t) == k(o.value, o.trace)
    decreases s, 0, 0
  {
    var Resume(r, name, arg, next) := s;
    EvalAgrees(z.w, arg, linear, env);
    NoUseNoSite(next, c.resume);
    ResumesNothing(next, c.resume);
    var a := Eval(z.w, arg, env);
    var o := resumption(a, t);
    ResumeMatched(z.w, s, env, resumption, k, t);
    StepFits(z, s, Cfg.Some(r), next, o.value, answer, st, env, linear, pending, k);
    assert Spliced(z, c, st, linear, open, a, t) == o;
    var st1 := Lower(z.h, z.ps, c.continuation, c.outer, c.answer, st).1;
    if IsIdentityReturn(next, r) && answer.Yield? {
      assert Go(z, answer, st, linear, open, o.value, o.trace) == k(o.value, o.trace);
    }
    ClauseRuns(z, next, Cfg.None, answer, st1, env[r := o.value], linear[r := o.value], pending, k, base, resumption,
      open, o.trace);
  }

  /** Under a join the lowered clause's value is what it would resume with. */
  lemma {:induction false} JoinRuns(z: Setting, s: Stmt, c: Context, answer: Answer, st: State, env: Env, linear: Env,
      open: Open, t: Trace)
    requires Erasable(z.h, z.ps) && st.nextVar >= z.limit && c.policy == Join
    requires TailResumptive(s, c.resume) && ResumesOnly(s, Cfg.Some(c.resume)) && !Performs(s, z.h.effect) && Tidy(s)
    requires Agree(linear, env, Free(s)) && Matched(Handed(z.w, s, env, t).trace)
    ensures Run(z.w, Lower(z.h, z.ps, s, Cfg.Some(c), answer, st).0, linear, open, t) == Handed(z.w, s, env, t)
    decreases s
  {
    match s
    case Let(b, e, next) =>
      EvalAgrees(z.w, e, linear, env);
      var v := Eval(z.w, e, env);
      AgreeBind(linear, env, Free(next), b, v);
      JoinRuns(z, next, c, answer, st, env[b := v], linear[b := v], open, t);
    case If(_, _, _) =>
      var branch, later := IfTakes(z, s, Cfg.Some(c), answer, st, env, linear, open, t);
      JoinRuns(z, branch, c, answer, later, env, linear, open, t);
    case Val(_, _, _) => JoinValRuns(z, s, c, answer, st, env, linear, open, t);
    case Resume(_, _, arg, _) => EvalAgrees(z.w, arg, linear, env);
    case Match(_, _, _) =>
      var (taken, inside) := Taken(z.w, s, env);
      if taken.Some? {
        var later := MatchLowered(z.h, z.ps, s, Cfg.Some(c), answer, st, Eval(z.w, s.scrutinee, env));
        var branch, inner := MatchRuns(z.w, s, Lower(z.h, z.ps, s, Cfg.Some(c), answer, st).0, env, linear, open, t);
        JoinRuns(z, taken.value, c, answer, later, inside, inner, open, t);
      }
  }

  lemma {:induction false} JoinValRuns(z: Setting, s: Stmt, c: Context, answer: Answer, st: State, env: Env,
      linear: Env, open: Open, t: Trace)
    requires Erasable(z.h, z.ps) && st.nextVar >= z.limit && c.policy == Join && s.Val?
    requires TailResumptive(s, c.resume) && ResumesOnly(s, Cfg.Some(c.resume)) && !Performs(s, z.h.effect) && Tidy(s)
    requires Agree(linear, env, Free(s)) && Matched(Handed(z.w, s, env, t).trace)
    ensures Run(z.w, Lower(z.h, z.ps, s, Cfg.Some(c), answer, st).0, linear, open, t) == Handed(z.w, s, env, t)
    decreases s, 0
  {
    var Val(b, graph, next) := s;
    if IsIdentityReturn(next, b) {
      TailResumes(z.w, graph, c.resume, env, t);
      JoinRuns(z, graph, c, Bind(b, next, Cfg.Some(c), answer), st, env, linear, open, t);
    } else {
      UnmentionedNotResumed(graph, c.resume);
      ResumesNothing(graph, c.resume);
      MeansYield(z, linear);
      var o := Direct(z.w, graph, env, Stop(), t);
      HandedExtends(z.w, next, env[b := o.value], o.trace);
      MatchedBefore(o.trace, Handed(z.w, s, env, t).trace);
      ClauseRuns(z, graph, Cfg.Some(c), Yield, st, env, linear, linear, Stop(), linear, Stop(), open, t);
      var st1 := Lower(z.h, z.ps, graph, Cfg.Some(c), Yield, st).1;
      AgreeBind(linear, env, Free(next), b, o.value);
      JoinRuns(z, next, c, answer, st1, env[b := o.value], linear[b := o.value], open, o.trace);
    }
  }

  // ---------------------------------------------------------------- performs

  function Below(vars: set<VarId>, limit: VarId): bool { forall v :: v in vars ==> v < limit }

  /** What handled code and the code after it need of the names around them. */
  ghost predicate Apart(z: Setting, s: Stmt, answer: Answer) {
    && HomeReads(z.h) <= Pending(z.h, answer)
    && ClauseBinders(z.h) !! Free(s) + Binders(s) + Pending(z.h, answer)
    && Below(Free(s) + Binders(s) + Pending(z.h, answer), z.limit)
  }

  ghost predicate BodyFits(z: Setting, s: Stmt, answer: Answer, st: State, home: Env, env: Env, linear: Env,
      pending: Env, k: Continuation)
    requires Erasable(z.h, z.ps)
  {
    && st.nextVar >= z.limit && ResumesOnly(s, Cfg.None) && Tidy(s) && Discharged(z.h, s)
    && Agree(linear, env, Free(s)) && Agree(linear, pending, Pending(z.h, answer)) && Binders(s) !! Pending(z.h, answer)
    && (Performs(s, z.h.effect) ==> Apart(z, s, answer) && Agree(pending, home, HomeReads(z.h)))
    && Means(z, answer, pending, k) && Extends(k)
  }

  /** What keeps a statement apart from the names around it keeps apart the code after it. */
  lemma ApartAfter(z: Setting, s: Stmt, x: Option<VarId>, next: Stmt, answer: Answer)
    requires Apart(z, s, answer) && Follows(s, x, next)
    ensures Apart(z, next, answer)
  {
    FollowsReads(s, x, next);
    var before, after := Free(s) + Binders(s) + Pending(z.h, answer), Free(next) + Binders(next) + Pending(z.h, answer);
    assert after <= before;
  }

  lemma ShapeAfter(z: Setting, s: Stmt, x: Option<VarId>, next: Stmt)
    requires Follows(s, x, next) && ResumesOnly(s, Cfg.None) && Tidy(s) && Discharged(z.h, s)
    ensures ResumesOnly(next, Cfg.None) && Tidy(next) && Discharged(z.h, next)
    ensures Performs(next, z.h.effect) ==> Performs(s, z.h.effect)
  {}

  lemma BodyStep(z: Setting, s: Stmt, x: Option<VarId>, next: Stmt, v: Value, answer: Answer, st: State, home: Env,
      env: Env, linear: Env, pending: Env, k: Continuation)
    requires Erasable(z.h, z.ps) && BodyFits(z, s, answer, st, home, env, linear, pending, k) && Follows(s, x, next)
    ensures BodyFits(z, next, answer, st, home, BindOption(env, x, v), BindOption(linear, x, v), pending, k)
  {
    FollowsReads(s, x, next);
    ShapeAfter(z, s, x, next);
    if Performs(next, z.h.effect) { ApartAfter(z, s, x, next, answer); }
    AgreeBindOption(linear, env, Free(next), x, v);
    AgreeUpdateOption(linear, pending, Pending(z.h, answer), x, v);
  }

  lemma {:induction false} BodyRuns(z: Setting, s: Stmt, answer: Answer, st: State, home: Env, env: Env, linear: Env,
      pending: Env, k: Continuation, open: Open, t: Trace)
    requires Erasable(z.h, z.ps) && BodyFits(z, s, answer, st, home, env, linear, pending, k)
    requires Matched(Body(z.w, z.h, home, s, env, k, t).trace)
    ensures Run(z.w, Lower(z.h, z.ps, s, Cfg.None, answer, st).0, linear, open, t) == Body(z.w, z.h, home, s, env, k, t)
    decreases s, 1
  {
    match s
    case Return(e) =>
      EvalAgrees(z.w, e, linear, env);
      var v := Eval(z.w, e, env);
      assert Go(z, answer, st, linear, open, v, t) == k(v, t);
    case Let(b, e, next) =>
      EvalAgrees(z.w, e, linear, env);
      var v := Eval(z.w, e, env);
      BodyStep(z, s, Cfg.Some(b), next, v, answer, st, home, env, linear, pending, k);
      BodyRuns(z, next, answer, st, home, env[b := v], linear[b := v], pending, k, open, t);
    case Call(_, _, _, _) => BodyEventRuns(z, s, answer, st, home, env, linear, pending, k, open, t);
    case If(_, _, _) => BodyIfRuns(z, s, answer, st, home, env, linear, pending, k, open, t);
    case Val(_, _, _) => BodyValRuns(z, s, answer, st, home, env, linear, pending, k, open, t);
    case Perform(r, effect, operation, args, next) =>
      if effect == z.h.effect {
        PerformRuns(z, s, answer, st, home, env, linear, pending, k, open, t);
      } else {
        BodyEventRuns(z, s, answer, st, home, env, linear, pending, k, open, t);
      }
    case Resume(_, _, _, _) => assert false;
    case Match(_, _, _) => BodyMatchRuns(z, s, answer, st, home, env, linear, pending, k, open, t);
  }

  lemma {:induction false} BodyMatchRuns(z: Setting, s: Stmt, answer: Answer, st: State, home: Env, env: Env,
      linear: Env, pending: Env, k: Continuation, open: Open, t: Trace)
    requires Erasable(z.h, z.ps) && BodyFits(z, s, answer, st, home, env, linear, pending, k) && s.Match?
    requires Matched(Body(z.w, z.h, home, s, env, k, t).trace)
    ensures Run(z.w, Lower(z.h, z.ps, s, Cfg.None, answer, st).0, linear, open, t) == Body(z.w, z.h, home, s, env, k, t)
    decreases s, 0
  {
    var (taken, inside) := Taken(z.w, s, env);
    if taken.None? {
      UnmatchedShows(k, Cfg.Unit, t);
    } else {
      var v := Eval(z.w, s.scrutinee, env);
      var later := MatchLowered(z.h, z.ps, s, Cfg.None, answer, st, v);
      var branch, inner := MatchRuns(z.w, s, Lower(z.h, z.ps, s, Cfg.None, answer, st).0, env, linear, open, t);
      BodyCaseFits(z, s, taken.value, v, answer, st, later, home, env, linear, pending, k);
      BodyRuns(z, taken.value, answer, later, home, inside, inner, pending, k, open, t);
    }
  }

  /** What a match without an arm to take does: the handled code goes on with unit, the spliced graph
      ends there, whatever was to come after the match. */
  lemma UnmatchedSkips(z: Setting, s: Stmt, answer: Answer, st: State, home: Env, env: Env, linear: Env,
      k: Continuation, open: Open, t: Trace)
    requires Answerable(z.h) && |z.ps| == |z.h.clauses| && s.Match? && Agree(linear, env, Free(s))
    requires Taken(z.w, s, env).0.None?
    ensures Body(z.w, z.h, home, s, env, k, t) == k(Cfg.Unit, t + [Unmatched])
    ensures Run(z.w, Lower(z.h, z.ps, s, Cfg.None, answer, st).0, linear, open, t) == Outcome(Cfg.Unit, t)
  {
    var v := Eval(z.w, s.scrutinee, env);
    EvalAgrees(z.w, s.scrutinee, linear, env);
    var later := MatchLowered(z.h, z.ps, s, Cfg.None, answer, st, v);
    if v.Ctor? { ChosenIsMatching(s.cases, Lower(z.h, z.ps, s, Cfg.None, answer, st).0.arms, v.tag, 0); }
  }

  lemma BodyCaseFits(z: Setting, s: Stmt, branch: Stmt, v: Value, answer: Answer, st: State, later: State, home: Env,
      env: Env, linear: Env, pending: Env, k: Continuation)
    requires Erasable(z.h, z.ps) && BodyFits(z, s, answer, st, home, env, linear, pending, k) && s.Match?
    requires v == Eval(z.w, s.scrutinee, env) && Taken(z.w, s, env).0 == Cfg.Some(branch) && later.nextVar >= st.nextVar
    ensures BodyFits(z, branch, answer, later, home, Taken(z.w, s, env).1, Entered(s, v, linear), pending, k)
  {
    BranchBinders(s, branch);
    BranchReads(s, branch);
    TakenAgrees(z.w, s, linear, env);
    EnteredOutside(s, v, linear, pending, Pending(z.h, answer));
    if Performs(branch, z.h.effect) {
      assert Free(branch) + Binders(branch) + Pending(z.h, answer) <= Free(s) + Binders(s) + Pending(z.h, answer);
    }
  }

  lemma {:induction false} BodyIfRuns(z: Setting, s: Stmt, answer: Answer, st: State, home: Env, env: Env,
      linear: Env, pending: Env, k: Continuation, open: Open, t: Trace)
    requires Erasable(z.h, z.ps) && BodyFits(z, s, answer, st, home, env, linear, pending, k) && s.If?
    requires Matched(Body(z.w, z.h, home, s, env, k, t).trace)
    ensures Run(z.w, Lower(z.h, z.ps, s, Cfg.None, answer, st).0, linear, open, t) == Body(z.w, z.h, home, s, env, k, t)
    decreases s, 0
  {
    var branch, later := IfTakes(z, s, Cfg.None, answer, st, env, linear, open, t);
    BranchFits(z, s, branch, answer, st, later, home, env, linear, pending, k);
    BodyRuns(z, branch, answer, later, home, env, linear, pending, k, open, t);
  }

  lemma BranchFits(z: Setting, s: Stmt, branch: Stmt, answer: Answer, st: State, later: State, home: Env, env: Env,
      linear: Env, pending: Env, k: Continuation)
    requires Erasable(z.h, z.ps) && BodyFits(z, s, answer, st, home, env, linear, pending, k) && s.If?
    requires (branch == s.thenBranch || branch == s.elseBranch) && later.nextVar >= st.nextVar
    ensures BodyFits(z, branch, answer, later, home, env, linear, pending, k)
  {
    assert Free(branch) <= Free(s) && Binders(branch) <= Binders(s);
  }

  /** A call, or a perform of another effect, is an event of the world's. */
  lemma {:induction false} BodyEventRuns(z: Setting, s: Stmt, answer: Answer, st: State, home: Env, env: Env,
      linear: Env, pending: Env, k: Continuation, open: Open, t: Trace)
    requires Erasable(z.h, z.ps) && BodyFits(z, s, answer, st, home, env, linear, pending, k)
    requires s.Call? || (s.Perform? && s.effect != z.h.effect)
    requires Matched(Body(z.w, z.h, home, s, env, k, t).trace)
    ensures Run(z.w, Lower(z.h, z.ps, s, Cfg.None, answer, st).0, linear, open, t) == Body(z.w, z.h, home, s, env, k, t)
    decreases s, 0
  {
    EvalAllAgrees(z.w, s.args, linear, env);
    var x := if s.Call? then Cfg.Some(s.result) else s.answer;
    var values := EvalAll(z.w, s.args, env);
    var event := if s.Call? then Called(s.callee, values) else Performed(s.effect, s.operation, values);
    var v := z.w.answer(t, event);
    BodyStep(z, s, x, s.next, v, answer, st, home, env, linear, pending, k);
    BodyRuns(z, s.next, answer, st, home, BindOption(env, x, v), BindOption(linear, x, v), pending, k, open,
      t + [event]);
  }

  lemma {:induction false} BodyValRuns(z: Setting, s: Stmt, answer: Answer, st: State, home: Env, env: Env,
      linear: Env, pending: Env, k: Continuation, open: Open, t: Trace)
    requires Erasable(z.h, z.ps) && BodyFits(z, s, answer, st, home, env, linear, pending, k) && s.Val?
    requires Matched(Body(z.w, z.h, home, s, env, k, t).trace)
    ensures Run(z.w, Lower(z.h, z.ps, s, Cfg.None, answer, st).0, linear, open, t) == Body(z.w, z.h, home, s, env, k, t)
    decreases s, 0
  {
    if Performs(s.graph, z.h.effect) {
      BodyValThreads(z, s, answer, st, home, env, linear, pending, k, open, t);
    } else {
      BodyValJoins(z, s, answer, st, home, env, linear, pending, k, open, t);
    }
  }

  /** The graph performs: the code after it is threaded into it. */
  lemma {:induction false} BodyValThreads(z: Setting, s: Stmt, answer: Answer, st: State, home: Env, env: Env,
      linear: Env, pending: Env, k: Continuation, open: Open, t: Trace)
    requires Erasable(z.h, z.ps) && BodyFits(z, s, answer, st, home, env, linear, pending, k) && s.Val?
    requires Performs(s.graph, z.h.effect)
    requires Matched(Body(z.w, z.h, home, s, env, k, t).trace)
    ensures Run(z.w, Lower(z.h, z.ps, s, Cfg.None, answer, st).0, linear, open, t) == Body(z.w, z.h, home, s, env, k, t)
    decreases s, 0, 1
  {
    var Val(b, graph, next) := s;
    RestMeans(z, s, answer, st, home, env, linear, pending, k);
    RestExtends(z.w, z.h, home, Cfg.Some(b), next, env, k);
    BodyRuns(z, graph, Bind(b, next, Cfg.None, answer), st, home, env, linear, linear,
      Rest(z.w, z.h, home, Cfg.Some(b), next, env, k), open, t);
  }

  /** A `Val` whose graph performs nothing runs the graph and then the code after it. */
  lemma BodyValDirect(w: World, h: Handler, home: Env, s: Stmt, env: Env, k: Continuation, t: Trace)
    requires s.Val? && !Performs(s.graph, h.effect) && ResumesOnly(s.graph, Cfg.None) && Extends(k)
    requires Matched(Body(w, h, home, s, env, k, t).trace)
    ensures var o := Direct(w, s.graph, env, Stop(), t);
      && Matched(o.trace)
      && Body(w, h, home, s, env, k, t) == Body(w, h, home, s.next, env[s.binding := o.value], k, o.trace)
  {
    var rest := Rest(w, h, home, Cfg.Some(s.binding), s.next, env, k);
    var o := Direct(w, s.graph, env, Stop(), t);
    BodyIsDirect(w, h, home, s.graph, env, rest, t);
    BodyExtends(w, h, home, s.next, env[s.binding := o.value], k, o.trace);
    assert BindOption(env, Cfg.Some(s.binding), o.value) == env[s.binding := o.value];
    MatchedBefore(o.trace, rest(o.value, o.trace).trace);
  }

  /** The graph performs nothing: it is joined before the code after it. */
  lemma {:induction false} BodyValJoins(z: Setting, s: Stmt, answer: Answer, st: State, home: Env, env: Env,
      linear: Env, pending: Env, k: Continuation, open: Open, t: Trace)
    requires Erasable(z.h, z.ps) && BodyFits(z, s, answer, st, home, env, linear, pending, k) && s.Val?
    requires !Performs(s.graph, z.h.effect)
    requires Matched(Body(z.w, z.h, home, s, env, k, t).trace)
    ensures Run(z.w, Lower(z.h, z.ps, s, Cfg.None, answer, st).0, linear, open, t) == Body(z.w, z.h, home, s, env, k, t)
    decreases s, 0, 1
  {
    var Val(b, graph, next) := s;
    var o := Direct(z.w, graph, env, Stop(), t);
    BodyValDirect(z.w, z.h, home, s, env, k, t);
    BodyGraphRuns(z, s, answer, st, home, env, linear, pending, k, open, t);
    var st1 := Lower(z.h, z.ps, graph, Cfg.None, Yield, st).1;
    BodyStep(z, s, Cfg.Some(b), next, o.value, answer, st, home, env, linear, pending, k);
    BodyRuns(z, next, answer, st1, home, env[b := o.value], linear[b := o.value], pending, k, open, o.trace);
  }

  lemma {:induction false} BodyGraphRuns(z: Setting, s: Stmt, answer: Answer, st: State, home: Env, env: Env,
      linear: Env, pending: Env, k: Continuation, open: Open, t: Trace)
    requires Erasable(z.h, z.ps) && BodyFits(z, s, answer, st, home, env, linear, pending, k) && s.Val?
    requires !Performs(s.graph, z.h.effect) && Matched(Direct(z.w, s.graph, env, Stop(), t).trace)
    ensures Run(z.w, Lower(z.h, z.ps, s.graph, Cfg.None, Yield, st).0, linear, open, t)
      == Direct(z.w, s.graph, env, Stop(), t)
    decreases s, 0, 0
  {
    MeansYield(z, linear);
    ClauseRuns(z, s.graph, Cfg.None, Yield, st, env, linear, linear, Stop(), linear, Stop(), open, t);
  }

  lemma {:induction false} RestMeans(z: Setting, s: Stmt, answer: Answer, st: State, home: Env, env: Env, linear: Env,
      pending: Env, k: Continuation)
    requires Erasable(z.h, z.ps) && BodyFits(z, s, answer, st, home, env, linear, pending, k) && s.Val?
    ensures Means(z, Bind(s.binding, s.next, Cfg.None, answer), linear,
      Rest(z.w, z.h, home, Cfg.Some(s.binding), s.next, env, k))
    decreases s, 0, 0
  {
    var Val(b, graph, next) := s;
    var frame, rest := Bind(b, next, Cfg.None, answer), Rest(z.w, z.h, home, Cfg.Some(b), next, env, k);
    forall st1: State, env1: Env, open1: Open, v: Value, u: Trace | st1.nextVar >= z.limit
      && Agree(env1, linear, Pending(z.h, frame)) && Matched(rest(v, u).trace)
      ensures Go(z, frame, st1, env1, open1, v, u) == rest(v, u)
    {
      BodyLater(z, s, Cfg.Some(b), next, v, answer, st, st1, home, env, linear, env1, pending, k);
      BodyRuns(z, next, answer, st1, home, env[b := v], env1[b := v], pending, k, open1, u);
      assert BindOption(env, Cfg.Some(b), v) == env[b := v];
    }
  }

  /** The code after `s` still finds all it needs, as long as `now` kept it. */
  lemma BodyLater(z: Setting, s: Stmt, x: Option<VarId>, next: Stmt, v: Value, answer: Answer, st: State,
      later: State, home: Env, env: Env, linear: Env, now: Env, pending: Env, k: Continuation)
    requires Erasable(z.h, z.ps) && BodyFits(z, s, answer, st, home, env, linear, pending, k) && Follows(s, x, next)
    requires later.nextVar >= z.limit && Agree(now, linear, (Free(next) - OptionSet(x)) + Pending(z.h, answer))
    ensures BodyFits(z, next, answer, later, home, BindOption(env, x, v), BindOption(now, x, v), pending, k)
  {
    FollowsReads(s, x, next);
    ShapeAfter(z, s, x, next);
    if Performs(next, z.h.effect) { ApartAfter(z, s, x, next, answer); }
    AgreeBindOption(now, env, Free(next), x, v);
    AgreeUpdateOption(now, pending, Pending(z.h, answer), x, v);
  }

  lemma {:induction false} PerformRuns(z: Setting, s: Stmt, answer: Answer, st: State, home: Env, env: Env,
      linear: Env, pending: Env, k: Continuation, open: Open, t: Trace)
    requires Erasable(z.h, z.ps) && BodyFits(z, s, answer, st, home, env, linear, pending, k) && s.Perform?
      && s.effect == z.h.effect
    requires Matched(Body(z.w, z.h, home, s, env, k, t).trace)
    ensures Run(z.w, Lower(z.h, z.ps, s, Cfg.None, answer, st).0, linear, open, t) == Body(z.w, z.h, home, s, env, k, t)
    decreases s, 0
  {
    match PolicyOf(z, s)
    case Inline => InlineRuns(z, s, answer, st, home, env, linear, pending, k, open, t);
    case Join => JoinedRuns(z, s, answer, st, home, env, linear, pending, k, open, t);
    case Defunctionalise => SharedRuns(z, s, answer, st, home, env, linear, pending, k, open, t);
  }

  function PolicyOf(z: Setting, s: Stmt): Policy
    requires Erasable(z.h, z.ps) && s.Perform? && s.effect == z.h.effect && Discharged(z.h, s)
  {
    z.ps[Find(z.h.clauses, s.operation).value]
  }

  /** A handled perform runs its clause, with the rest of the body as its resumption. */
  lemma BodyAsks(z: Setting, s: Stmt, home: Env, env: Env, k: Continuation, t: Trace)
    requires s.Perform? && s.effect == z.h.effect && Discharged(z.h, s)
    ensures var clause := AskedOf(z, s);
      |clause.params| == |s.args| &&
      Body(z.w, z.h, home, s, env, k, t)
        == Direct(z.w, clause.body, BindAll(home, clause.params, EvalAll(z.w, s.args, env), |s.args|),
            Rest(z.w, z.h, home, s.answer, s.next, env, k), t)
  {}

  function AskedOf(z: Setting, s: Stmt): Clause
    requires s.Perform? && s.effect == z.h.effect && Discharged(z.h, s)
  {
    z.h.clauses[Find(z.h.clauses, s.operation).value]
  }

  /** What a handled perform is inlined to. */
  lemma InlinesTo(z: Setting, s: Stmt, answer: Answer, st: State)
    requires Erasable(z.h, z.ps) && s.Perform? && s.effect == z.h.effect && Discharged(z.h, s)
    requires PolicyOf(z, s) == Inline
    ensures var clause := AskedOf(z, s);
      var entered := ClauseContext(clause, Inline, s.answer, s.next, answer, Cfg.None, st);
      |clause.params| == |s.args| &&
      Lower(z.h, z.ps, s, Cfg.None, answer, st).0
        == BindParams(clause.params, s.args, |s.args|, Lower(z.h, z.ps, clause.body, entered, Yield, st).0)
  {
    PerformFinishes(z.h, z.ps, s, Cfg.None, answer, st);
  }

  lemma {:induction false} InlineRuns(z: Setting, s: Stmt, answer: Answer, st: State, home: Env, env: Env,
      linear: Env, pending: Env, k: Continuation, open: Open, t: Trace)
    requires Erasable(z.h, z.ps) && BodyFits(z, s, answer, st, home, env, linear, pending, k) && s.Perform?
      && s.effect == z.h.effect
    requires PolicyOf(z, s) == Inline
    requires Matched(Body(z.w, z.h, home, s, env, k, t).trace)
    ensures Run(z.w, Lower(z.h, z.ps, s, Cfg.None, answer, st).0, linear, open, t) == Body(z.w, z.h, home, s, env, k, t)
    decreases s, 0, 2
  {
    var clause := AskedOf(z, s);
    var entered := ClauseContext(clause, Inline, s.answer, s.next, answer, Cfg.None, st);
    var body := Lower(z.h, z.ps, clause.body, entered, Yield, st).0;
    InlinesTo(z, s, answer, st);
    BodyAsks(z, s, home, env, k, t);
    EvalAllAgrees(z.w, s.args, linear, env);
    ClauseStarts(z, s, Find(z.h.clauses, s.operation).value, answer, st, st, home, env, linear, pending, k);
    ParamsRun(z.w, clause.params, s.args, |s.args|, body, linear, open, t);
    var values := EvalAll(z.w, s.args, env);
    InlinedClauseRuns(z, s, entered, BindAll(home, clause.params, values, |s.args|),
      BindAll(linear, clause.params, values, |s.args|), answer, st, home, env, linear, pending, k, open, t);
  }

  /** The clause inlined, from where its arguments are bound. */
  lemma {:induction false} InlinedClauseRuns(z: Setting, s: Stmt, entered: Option<Context>, inner: Env, started: Env,
      answer: Answer, st: State, home: Env, env: Env, linear: Env, pending: Env, k: Continuation, open: Open,
      t: Trace)
    requires Erasable(z.h, z.ps) && BodyFits(z, s, answer, st, home, env, linear, pending, k) && s.Perform?
      && s.effect == z.h.effect
    requires PolicyOf(z, s) == Inline
      && entered == ClauseContext(AskedOf(z, s), Inline, s.answer, s.next, answer, Cfg.None, st)
    requires ClauseFits(z, AskedOf(z, s).body, Yield, st, inner, started, started, Stop())
    requires Agree(started, linear, (Free(s.next) - OptionSet(s.answer)) + Pending(z.h, answer))
    requires Binders(AskedOf(z, s).body) !! (Free(s.next) - OptionSet(s.answer)) + Pending(z.h, answer)
    requires Matched(Direct(z.w, AskedOf(z, s).body, inner, Rest(z.w, z.h, home, s.answer, s.next, env, k), t).trace)
    ensures Run(z.w, Lower(z.h, z.ps, AskedOf(z, s).body, entered, Yield, st).0, started, open, t)
      == Direct(z.w, AskedOf(z, s).body, inner, Rest(z.w, z.h, home, s.answer, s.next, env, k), t)
    decreases s, 0, 1
  {
    var resumption := Rest(z.w, z.h, home, s.answer, s.next, env, k);
    RestExtends(z.w, z.h, home, s.answer, s.next, env, k);
    ContinuesAfter(z, s, entered, answer, st, home, env, linear, pending, k);
    assert AskedOf(z, s) in z.h.clauses;
    ClauseRuns(z, AskedOf(z, s).body, entered, Yield, st, inner, started, started, Stop(), linear, resumption, open, t);
  }

  lemma {:induction false} JoinedRuns(z: Setting, s: Stmt, answer: Answer, st: State, home: Env, env: Env,
      linear: Env, pending: Env, k: Continuation, open: Open, t: Trace)
    requires Erasable(z.h, z.ps) && BodyFits(z, s, answer, st, home, env, linear, pending, k) && s.Perform?
      && s.effect == z.h.effect
    requires PolicyOf(z, s) == Join
    requires Matched(Body(z.w, z.h, home, s, env, k, t).trace)
    ensures Run(z.w, Lower(z.h, z.ps, s, Cfg.None, answer, st).0, linear, open, t) == Body(z.w, z.h, home, s, env, k, t)
    decreases s, 0, 1
  {
    var Perform(r, effect, operation, args, next) := s;
    var i := Find(z.h.clauses, operation).value;
    var clause := z.h.clauses[i];
    PerformFinishes(z.h, z.ps, s, Cfg.None, answer, st);
    var resumption := Rest(z.w, z.h, home, r, next, env, k);
    RestExtends(z.w, z.h, home, r, next, env, k);
    var entered := ClauseContext(clause, Join, r, next, answer, Cfg.None, st);
    var (body, st1) := Lower(z.h, z.ps, clause.body, entered, Yield, st);
    EvalAllAgrees(z.w, args, linear, env);
    var values := EvalAll(z.w, args, env);
    var inner, started := BindAll(home, clause.params, values, |args|), BindAll(linear, clause.params, values, |args|);
    ClauseStarts(z, s, i, answer, st, st, home, env, linear, pending, k);
    ParamsRun(z.w, clause.params, args, |args|, body, linear, open, t);
    HandedBefore(z.w, clause.body, entered.value.resume, inner, resumption, t);
    MatchedBefore(Handed(z.w, clause.body, inner, t).trace, Direct(z.w, clause.body, inner, resumption, t).trace);
    JoinRuns(z, clause.body, entered.value, Yield, st, inner, started, open, t);
    TailHandsOver(z.w, clause.body, entered.value.resume, inner, resumption, t);
    var (rest, st2) := Lower(z.h, z.ps, next, Cfg.None, answer, st1);
    BinderContinues(z, s, answer, st, st1, st2, home, env, linear, pending, k, open);
    var o := Handed(z.w, clause.body, inner, t);
    assert Run(z.w, rest, linear[Binder(r, st2).0 := o.value], open, o.trace) == resumption(o.value, o.trace);
  }

  lemma {:induction false} SharedRuns(z: Setting, s: Stmt, answer: Answer, st: State, home: Env, env: Env,
      linear: Env, pending: Env, k: Continuation, open: Open, t: Trace)
    requires Erasable(z.h, z.ps) && BodyFits(z, s, answer, st, home, env, linear, pending, k) && s.Perform?
      && s.effect == z.h.effect
    requires PolicyOf(z, s) == Defunctionalise
    requires Matched(Body(z.w, z.h, home, s, env, k, t).trace)
    ensures Run(z.w, Lower(z.h, z.ps, s, Cfg.None, answer, st).0, linear, open, t) == Body(z.w, z.h, home, s, env, k, t)
    decreases s, 0, 2
  {
    var clause := AskedOf(z, s);
    var entered := ClauseContext(clause, Defunctionalise, s.answer, s.next, answer, Cfg.None, st);
    var st0 := Reserve(Defunctionalise, st);
    var (body, st1) := Lower(z.h, z.ps, clause.body, entered, Yield, st0);
    var (rest, st2) := Lower(z.h, z.ps, s.next, Cfg.None, answer, st1);
    var b := Binder(s.answer, st2).0;
    SharesTo(z, s, answer, st, linear, open, t);
    BodyAsks(z, s, home, env, k, t);
    EvalAllAgrees(z.w, s.args, linear, env);
    ClauseStarts(z, s, Find(z.h.clauses, s.operation).value, answer, st, st0, home, env, linear, pending, k);
    var within := open[st.nextResumption := Entering(z, rest, b, linear, open)];
    ParamsRun(z.w, clause.params, s.args, |s.args|, body, linear, within, t);
    var values := EvalAll(z.w, s.args, env);
    SharedClauseRuns(z, s, entered, BindAll(home, clause.params, values, |s.args|),
      BindAll(linear, clause.params, values, |s.args|), answer, st, home, env, linear, pending, k, open, t);
  }

  /** The shared continuation, entered by a jump. */
  ghost function Entering(z: Setting, rest: Graph, b: VarId, linear: Env, open: Open): Continuation {
    (a: Value, u: Trace) => Run(z.w, rest, linear[b := a], open, u)
  }

  /** What a handled perform whose clause shares its continuation is lowered to. */
  lemma SharesTo(z: Setting, s: Stmt, answer: Answer, st: State, linear: Env, open: Open, t: Trace)
    requires Erasable(z.h, z.ps) && s.Perform? && s.effect == z.h.effect && Discharged(z.h, s)
    requires PolicyOf(z, s) == Defunctionalise
    ensures var clause := AskedOf(z, s);
      var entered := ClauseContext(clause, Defunctionalise, s.answer, s.next, answer, Cfg.None, st);
      var (body, st1) := Lower(z.h, z.ps, clause.body, entered, Yield, Reserve(Defunctionalise, st));
      var (rest, st2) := Lower(z.h, z.ps, s.next, Cfg.None, answer, st1);
      |clause.params| == |s.args| &&
      Run(z.w, Lower(z.h, z.ps, s, Cfg.None, answer, st).0, linear, open, t)
        == Run(z.w, BindParams(clause.params, s.args, |s.args|, body), linear,
          open[st.nextResumption := Entering(z, rest, Binder(s.answer, st2).0, linear, open)], t)
  {
    PerformFinishes(z.h, z.ps, s, Cfg.None, answer, st);
  }

  /** The clause with its continuation shared, from where its arguments are bound. */
  lemma {:induction false} SharedClauseRuns(z: Setting, s: Stmt, entered: Option<Context>, inner: Env, started: Env,
      answer: Answer, st: State, home: Env, env: Env, linear: Env, pending: Env, k: Continuation, open: Open,
      t: Trace)
    requires Erasable(z.h, z.ps) && BodyFits(z, s, answer, st, home, env, linear, pending, k) && s.Perform?
      && s.effect == z.h.effect
    requires PolicyOf(z, s) == Defunctionalise
      && entered == ClauseContext(AskedOf(z, s), Defunctionalise, s.answer, s.next, answer, Cfg.None, st)
    requires ClauseFits(z, AskedOf(z, s).body, Yield, Reserve(Defunctionalise, st), inner, started, started, Stop())
    requires Matched(Direct(z.w, AskedOf(z, s).body, inner, Rest(z.w, z.h, home, s.answer, s.next, env, k), t).trace)
    ensures var (body, st1) := Lower(z.h, z.ps, AskedOf(z, s).body, entered, Yield, Reserve(Defunctionalise, st));
      var (rest, st2) := Lower(z.h, z.ps, s.next, Cfg.None, answer, st1);
      Run(z.w, body, started,
        open[st.nextResumption := Entering(z, rest, Binder(s.answer, st2).0, linear, open)], t)
      == Direct(z.w, AskedOf(z, s).body, inner, Rest(z.w, z.h, home, s.answer, s.next, env, k), t)
    decreases s, 0, 1
  {
    var clause, resumption := AskedOf(z, s), Rest(z.w, z.h, home, s.answer, s.next, env, k);
    var st0 := Reserve(Defunctionalise, st);
    var st1 := Lower(z.h, z.ps, clause.body, entered, Yield, st0).1;
    var (rest, st2) := Lower(z.h, z.ps, s.next, Cfg.None, answer, st1);
    RestExtends(z.w, z.h, home, s.answer, s.next, env, k);
    BinderContinues(z, s, answer, st, st1, st2, home, env, linear, pending, k, open);
    var within := open[st.nextResumption := Entering(z, rest, Binder(s.answer, st2).0, linear, open)];
    assert Shared(within, st.nextResumption, resumption);
    assert clause in z.h.clauses;
    ClauseRuns(z, clause.body, entered, Yield, st0, inner, started, started, Stop(), linear, resumption, within, t);
  }

  /** A clause finds its arguments and its handler's variables, and leaves the perform's alone. */
  lemma ClauseStarts(z: Setting, s: Stmt, i: nat, answer: Answer, st: State, st0: State, home: Env, env: Env,
      linear: Env, pending: Env, k: Continuation)
    requires Erasable(z.h, z.ps) && BodyFits(z, s, answer, st, home, env, linear, pending, k) && s.Perform?
      && s.effect == z.h.effect
    requires Find(z.h.clauses, s.operation) == Cfg.Some(i) && st0.nextVar >= z.limit
    ensures |z.h.clauses[i].params| == |s.args| && Names(z.h.clauses[i].params) !! ReadsOfAll(s.args)
    ensures var values := EvalAll(z.w, s.args, env);
      var inner, started := BindAll(home, z.h.clauses[i].params, values, |s.args|),
        BindAll(linear, z.h.clauses[i].params, values, |s.args|);
      && ClauseFits(z, z.h.clauses[i].body, Yield, st0, inner, started, started, Stop())
      && Agree(started, linear, (Free(s.next) - OptionSet(s.answer)) + Pending(z.h, answer))
    ensures Binders(z.h.clauses[i].body) !! (Free(s.next) - OptionSet(s.answer)) + Pending(z.h, answer)
  {
    var clause := z.h.clauses[i];
    var values := EvalAll(z.w, s.args, env);
    var started := BindAll(linear, clause.params, values, |s.args|);
    var kept := (Free(s.next) - OptionSet(s.answer)) + Pending(z.h, answer);
    forall v | v in Binders(clause.body) + Names(clause.params) ensures v in ClauseBinders(z.h) {
      assert v in Binders(z.h.clauses[i].body) + Names(z.h.clauses[i].params);
    }
    assert ReadsOfAll(s.args) <= Free(s) && Free(s.next) - OptionSet(s.answer) <= Free(s);
    assert clause.params[..|s.args|] == clause.params;
    forall v | v in Free(clause.body) - Names(clause.params) ensures v in HomeReads(z.h) {
      assert v in Free(z.h.clauses[i].body) - Names(z.h.clauses[i].params);
    }
    AgreeBindAll(linear, home, Free(clause.body), clause.params, values, |s.args|);
    AgreeOutside(linear, linear, kept, clause.params, values, |s.args|);
    MeansYield(z, started);
  }

  lemma {:induction false} ContinuesAfter(z: Setting, s: Stmt, entered: Option<Context>, answer: Answer, st: State,
      home: Env, env: Env, linear: Env, pending: Env, k: Continuation)
    requires Erasable(z.h, z.ps) && BodyFits(z, s, answer, st, home, env, linear, pending, k) && s.Perform?
    requires entered.Some? ==>
      (entered.value.continuation == s.next && entered.value.performed == s.answer
       && entered.value.answer == answer && entered.value.outer == Cfg.None)
    ensures entered.Some? ==> Continues(z, entered.value, linear, Rest(z.w, z.h, home, s.answer, s.next, env, k))
    decreases s, 0, 0
  {
    if entered.Some? {
      var c := entered.value;
      forall st1: State, env1: Env, open1: Open, v: Value, u: Trace | st1.nextVar >= z.limit
        && Agree(env1, linear, Kept(z, c))
          && Matched(Rest(z.w, z.h, home, s.answer, s.next, env, k)(v, u).trace)
        ensures Spliced(z, c, st1, env1, open1, v, u) == Rest(z.w, z.h, home, s.answer, s.next, env, k)(v, u)
      {
        BodyLater(z, s, s.answer, s.next, v, answer, st, st1, home, env, linear, env1, pending, k);
        BodyRuns(z, s.next, answer, st1, home, BindOption(env, s.answer, v), BindOption(env1, s.answer, v), pending, k,
          open1, u);
      }
    }
  }

  /** Binding the perform's answer, under its own name or a made-up one, and going on. */
  lemma {:induction false} BinderContinues(z: Setting, s: Stmt, answer: Answer, st: State, st1: State, st2: State,
      home: Env, env: Env, linear: Env, pending: Env, k: Continuation, open: Open)
    requires Erasable(z.h, z.ps) && BodyFits(z, s, answer, st, home, env, linear, pending, k) && s.Perform?
      && s.effect == z.h.effect
    requires st1.nextVar >= z.limit && st2.nextVar >= z.limit
    ensures forall v, u :: Matched(Rest(z.w, z.h, home, s.answer, s.next, env, k)(v, u).trace) ==>
      Run(z.w, Lower(z.h, z.ps, s.next, Cfg.None, answer, st1).0, linear[Binder(s.answer, st2).0 := v], open, u)
        == Rest(z.w, z.h, home, s.answer, s.next, env, k)(v, u)
    decreases s, 0, 0
  {
    var b := Binder(s.answer, st2).0;
    forall v: Value, u: Trace | Matched(Rest(z.w, z.h, home, s.answer, s.next, env, k)(v, u).trace)
      ensures Run(z.w, Lower(z.h, z.ps, s.next, Cfg.None, answer, st1).0, linear[b := v], open, u)
           == Rest(z.w, z.h, home, s.answer, s.next, env, k)(v, u)
    {
      var kept := (Free(s.next) - OptionSet(s.answer)) + Pending(z.h, answer);
      FollowsReads(s, s.answer, s.next);
      var now := if s.answer.Some? then linear else linear[b := v];
      if s.answer.None? { AgreeUpdate(linear, linear, kept, b, v); }
      BodyLater(z, s, s.answer, s.next, v, answer, st, st1, home, env, linear, now, pending, k);
      assert BindOption(now, s.answer, v) == linear[b := v];
      BodyRuns(z, s.next, answer, st1, home, BindOption(env, s.answer, v), linear[b := v], pending, k, open, u);
    }
  }

  // ---------------------------------------------------------------- the theorems

  /** What the compiler's own variable numbering guarantees: no name is bound twice, so handled
      code, clauses and the code around the handler do not capture each other's variables. */
  ghost predicate Distinct(h: Handler, body: Stmt, limit: VarId) {
    && Tidy(body)
    && Binders(body) !! HomeReads(h)
    && ClauseBinders(h) !! Free(body) + Binders(body) + HomeReads(h)
    && Below(Free(body) + Binders(body) + HomeReads(h), limit)
  }

  /** Erasing the handler keeps the handle expression's value and everything the world sees of it,
      whatever suitable strategy each clause is erased with, when the handle leaves no match without
      an arm. */
  lemma ErasureKeepsMeaning(z: Setting, body: Stmt, st: State, env: Env, open: Open, t: Trace)
    requires Erasable(z.h, z.ps) && Distinct(z.h, body, z.limit) && Discharged(z.h, body) && ResumesOnly(body, Cfg.None)
    requires st.nextVar >= z.limit && Matched(Handled(z.w, z.h, body, env, t).trace)
    ensures Run(z.w, Lower(z.h, z.ps, body, Cfg.None, HandlerReturn, st).0, env, open, t)
      == Handled(z.w, z.h, body, env, t)
  {
    var k := ReturnClause(z.w, z.h, env);
    forall v: Value, u: Trace
      ensures u <= k(v, u).trace
    {
      DirectExtends(z.w, z.h.returnBody, env[z.h.returnParam := v], Stop(), u);
    }
    forall st1: State, env1: Env, open1: Open, v: Value, u: Trace | st1.nextVar >= z.limit
      && Agree(env1, env, HomeReads(z.h)) && Matched(k(v, u).trace)
      ensures Go(z, HandlerReturn, st1, env1, open1, v, u) == k(v, u)
    {
      AgreeBind(env1, env, Free(z.h.returnBody), z.h.returnParam, v);
      PlainRuns(z.w, z.h.returnBody, env[z.h.returnParam := v], env1[z.h.returnParam := v], open1, u);
    }
    BodyRuns(z, body, HandlerReturn, st, env, env, env, env, k, open, t);
  }

  /** Sharing one continuation, joining after the clause and re-lowering at every site all come to
      the same. */
  lemma StrategiesAgree(z: Setting, other: seq<Policy>, body: Stmt, st: State, st2: State, env: Env, open: Open,
      t: Trace)
    requires Erasable(z.h, z.ps) && Erasable(z.h, other)
    requires Distinct(z.h, body, z.limit) && Discharged(z.h, body) && ResumesOnly(body, Cfg.None)
    requires st.nextVar >= z.limit && st2.nextVar >= z.limit && Matched(Handled(z.w, z.h, body, env, t).trace)
    ensures Run(z.w, Lower(z.h, z.ps, body, Cfg.None, HandlerReturn, st).0, env, open, t)
         == Run(z.w, Lower(z.h, other, body, Cfg.None, HandlerReturn, st2).0, env, open, t)
  {
    ErasureKeepsMeaning(z, body, st, env, open, t);
    ErasureKeepsMeaning(z.(ps := other), body, st2, env, open, t);
  }

  function ChosenPolicies(h: Handler): seq<Policy> {
    seq(|h.clauses|, i requires 0 <= i < |h.clauses| => ErasePolicy(h.clauses[i]))
  }

  function AlwaysInline(h: Handler): seq<Policy> { seq(|h.clauses|, _ => Inline) }

  /** What a handler must be for erasure to be right, whatever the strategies. */
  predicate WellFormed(h: Handler) {
    && Answerable(h) && ResumesOnly(h.returnBody, Cfg.None)
    && forall c :: c in h.clauses ==> SingleShot(c) && Tidy(c.body)
  }

  /** The strategies the compiler chooses suit their clauses, and re-lowering everywhere suits any. */
  lemma ChosenPoliciesSuit(h: Handler)
    requires WellFormed(h)
    ensures Erasable(h, ChosenPolicies(h)) && Erasable(h, AlwaysInline(h))
  {
    forall i | 0 <= i < |h.clauses| ensures SingleShot(h.clauses[i]) && Tidy(h.clauses[i].body) {
      assert h.clauses[i] in h.clauses;
    }
  }

  /** The compiler's choice of strategy never changes what the erased code does. */
  lemma ChoiceIsSound(w: World, h: Handler, limit: VarId, body: Stmt, st: State, env: Env, open: Open, t: Trace)
    requires WellFormed(h) && Distinct(h, body, limit) && Discharged(h, body) && ResumesOnly(body, Cfg.None)
    requires st.nextVar >= limit && Matched(Handled(w, h, body, env, t).trace)
    ensures var chosen := Run(w, Lower(h, ChosenPolicies(h), body, Cfg.None, HandlerReturn, st).0, env, open, t);
      && chosen == Handled(w, h, body, env, t)
      && chosen == Run(w, Lower(h, AlwaysInline(h), body, Cfg.None, HandlerReturn, st).0, env, open, t)
  {
    ChosenPoliciesSuit(h);
    var z := Setting(w, h, ChosenPolicies(h), limit);
    ErasureKeepsMeaning(z, body, st, env, open, t);
    StrategiesAgree(z, AlwaysInline(h), body, st, st, env, open, t);
  }

  /** The graph does what the handle expression does, in every world and environment in which that
      leaves no match without an arm. */
  ghost predicate Erases(g: Graph, h: Handler, body: Stmt) {
    forall w: World, env: Env, open: Open, t: Trace {:trigger Run(w, g, env, open, t)} ::
      Matched(Handled(w, h, body, env, t).trace) ==> Run(w, g, env, open, t) == Handled(w, h, body, env, t)
  }
}
