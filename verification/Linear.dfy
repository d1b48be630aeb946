/** The linear form handlers are erased into: statements whose resumptions are explicit. */
module Linear {
  import Cfg
  import opened Core
  import opened ClauseAnalysis

  type ResumptionId = nat

  datatype Graph =
    | Return(value: Expr)
    | Let(binding: VarId, bound: Expr, next: Graph)
    | Val(binding: VarId, graph: Graph, next: Graph)
    | Call(result: VarId, callee: nat, args: seq<Expr>, next: Graph)
    | If(cond: Expr, thenBranch: Graph, elseBranch: Graph)
    | Perform(answer: Option<VarId>, effect: nat, operation: nat, args: seq<Expr>, next: Graph)
    | Match(scrutinee: Expr, arms: seq<Arm>, default: Option<Graph>)
    | Handle(handled: nat, body: Graph, after: Option<Graph>)
    | Stage(stage: nat, body: Graph, after: Option<Graph>)
    | Resumption(id: ResumptionId, clause: Graph, param: VarId, continuation: Graph)
    | ResumeJump(target: ResumptionId, site: nat, arg: Expr, result: VarId, next: Graph)
    | Error

  datatype Arm = Arm(tag: nat, binders: seq<VarId>, body: Graph)

  /** The first arm for the constructor, if any. */
  function Matching(arms: seq<Arm>, tag: nat): Option<nat> { MatchingFrom(arms, tag, 0) }

  function MatchingFrom(arms: seq<Arm>, tag: nat, i: nat): (r: Option<nat>)
    requires i <= |arms|
    ensures r.Some? ==> i <= r.value < |arms| && arms[r.value].tag == tag
    ensures r.Some? ==> forall k :: i <= k < r.value ==> arms[k].tag != tag
    ensures r.None? ==> forall k :: i <= k < |arms| ==> arms[k].tag != tag
    decreases |arms| - i
  {
    if i == |arms| then Cfg.None else if arms[i].tag == tag then Cfg.Some(i) else MatchingFrom(arms, tag, i + 1)
  }

  /** The resumptions whose clause is being run. */
  type Open = map<ResumptionId, Continuation>

  /** A `Resumption` runs its clause with one continuation that every jump to it enters; a jump comes
      back into its own `next` with the continuation's value. */
  ghost function Run(w: World, g: Graph, env: Env, open: Open, t: Trace): Outcome
    decreases g
  {
    match g
    case Return(e) => Outcome(Eval(w, e, env), t)
    case Let(b, e, next) => Run(w, next, env[b := Eval(w, e, env)], open, t)
    case Val(b, graph, next) =>
      var o := Run(w, graph, env, open, t);
      Run(w, next, env[b := o.value], open, o.trace)
    case Call(r, callee, args, next) =>
      var event := Called(callee, EvalAll(w, args, env));
      Run(w, next, env[r := w.answer(t, event)], open, t + [event])
    case If(c, x, y) =>
      if IsTrue(Eval(w, c, env)) then Run(w, x, env, open, t) else Run(w, y, env, open, t)
    case Perform(r, effect, operation, args, next) =>
      var event := Performed(effect, operation, EvalAll(w, args, env));
      Run(w, next, BindOption(env, r, w.answer(t, event)), open, t + [event])
    case Match(scrutinee, arms, default) =>
      var v := Eval(w, scrutinee, env);
      var i := if v.Ctor? then Matching(arms, v.tag) else Cfg.None;
      if i.Some? then
        Run(w, arms[i.value].body, BindFields(env, arms[i.value].binders, v.fields), open, t)
      else (match default
        case Some(other) => Run(w, other, env, open, t)
        case None => Outcome(Cfg.Unit, t))
    case Handle(effect, body, after) =>
      var o := Run(w, body, env, open, t + [HandlerOpened(effect)]);
      (match after
       case Some(next) => Run(w, next, env, open, o.trace + [HandlerClosed(effect)])
       case None => Outcome(o.value, o.trace + [HandlerClosed(effect)]))
    case Stage(stage, body, after) =>
      var o := Run(w, body, env, open, t + [StageOpened(stage)]);
      (match after
       case Some(next) => Run(w, next, env, open, o.trace + [StageClosed(stage)])
       case None => Outcome(o.value, o.trace + [StageClosed(stage)]))
    case Resumption(id, clause, param, continuation) =>
      Run(w, clause, env, open[id := (a: Value, u: Trace) => Run(w, continuation, env[param := a], open, u)], t)
    case ResumeJump(id, _, arg, r, next) =>
      if id !in open then Outcome(Cfg.Unit, t)
      else
        var o := open[id](Eval(w, arg, env), t);
        Run(w, next, env[r := o.value], open, o.trace)
    case Error => Outcome(Cfg.Unit, t)
  }

  /** Variables a graph reads from outside; a resumption's continuation sees the variables around it. */
  function GraphReads(g: Graph): set<VarId>
    decreases g
  {
    match g
    case Return(e) => Reads(e)
    case Let(b, e, next) => Reads(e) + (GraphReads(next) - {b})
    case Val(b, graph, next) => GraphReads(graph) + (GraphReads(next) - {b})
    case Call(r, _, args, next) => ReadsOfAll(args) + (GraphReads(next) - {r})
    case If(c, x, y) => Reads(c) + GraphReads(x) + GraphReads(y)
    case Perform(r, _, _, args, next) => ReadsOfAll(args) + (GraphReads(next) - OptionSet(r))
    case Match(scrutinee, arms, default) => Reads(scrutinee) + ArmsRead(arms, |arms|) + AfterReads(default)
    case Handle(_, body, after) => GraphReads(body) + AfterReads(after)
    case Stage(_, body, after) => GraphReads(body) + AfterReads(after)
    case Resumption(_, clause, param, continuation) => GraphReads(clause) + (GraphReads(continuation) - {param})
    case ResumeJump(_, _, arg, r, next) => Reads(arg) + (GraphReads(next) - {r})
    case Error => {}
  }

  function AfterReads(after: Option<Graph>): set<VarId>
    decreases after
  {
    match after
    case None => {}
    case Some(next) => GraphReads(next)
  }

  /** Of the first `n` arms; each binds its own fields. */
  function ArmsRead(arms: seq<Arm>, n: nat): set<VarId>
    requires n <= |arms|
    decreases arms, n
  {
    if n == 0 then {} else ArmsRead(arms, n - 1) + ArmReads(arms[n - 1])
  }

  function ArmReads(arm: Arm): set<VarId>
    decreases arm
  {
    GraphReads(arm.body) - Names(arm.binders)
  }

  /** No clause in the graph shares its continuation. */
  predicate Dispatchless(g: Graph)
    decreases g
  {
    match g
    case Return(_) => true
    case Let(_, _, next) => Dispatchless(next)
    case Val(_, graph, next) => Dispatchless(graph) && Dispatchless(next)
    case Call(_, _, _, next) => Dispatchless(next)
    case If(_, x, y) => Dispatchless(x) && Dispatchless(y)
    case Perform(_, _, _, _, next) => Dispatchless(next)
    case Match(_, arms, default) =>
      (forall i :: 0 <= i < |arms| ==> Dispatchless(arms[i].body)) && DispatchlessAfter(default)
    case Handle(_, body, after) => Dispatchless(body) && DispatchlessAfter(after)
    case Stage(_, body, after) => Dispatchless(body) && DispatchlessAfter(after)
    case Resumption(_, _, _, _) => false
    case ResumeJump(_, _, _, _, _) => false
    case Error => true
  }

  predicate DispatchlessAfter(after: Option<Graph>)
    decreases after
  {
    after.Some? ==> Dispatchless(after.value)
  }

  // ---------------------------------------------------------------- code outside a handled body

  /** Lowered as it stands; a `resume` outside a clause is diagnosed and skipped. */
  function Plain(s: Stmt): Graph
    decreases s
  {
    match s
    case Return(e) => Graph.Return(e)
    case Let(b, e, next) => Graph.Let(b, e, Plain(next))
    case Val(b, graph, next) => Graph.Val(b, Plain(graph), Plain(next))
    case Call(r, callee, args, next) => Graph.Call(r, callee, args, Plain(next))
    case If(c, x, y) => Graph.If(c, Plain(x), Plain(y))
    case Perform(r, effect, operation, args, next) => Graph.Perform(r, effect, operation, args, Plain(next))
    case Resume(_, _, _, next) => Plain(next)
    case Match(e, cases, default) =>
      Graph.Match(e,
        seq(|cases|, i requires 0 <= i < |cases| => Arm(cases[i].tag, cases[i].binders, Plain(cases[i].body))),
        if default.Some? then Cfg.Some(Plain(default.value)) else Cfg.None)
  }

  /** The arms came from the cases, in their order. */
  ghost predicate ArmsMatch(cases: seq<Case>, arms: seq<Arm>) {
    |arms| == |cases| && forall i :: 0 <= i < |cases| ==>
      arms[i].tag == cases[i].tag && arms[i].binders == cases[i].binders
  }

  lemma {:induction false} ChosenIsMatching(cases: seq<Case>, arms: seq<Arm>, tag: nat, i: nat)
    requires ArmsMatch(cases, arms) && i <= |cases|
    ensures MatchingFrom(arms, tag, i) == Chosen(cases, tag, i)
    decreases |cases| - i
  {
    if i < |cases| && cases[i].tag != tag { ChosenIsMatching(cases, arms, tag, i + 1); }
  }

  /** A lowered match runs the arm its source takes, in the environment with that arm's fields. */
  lemma MatchRuns(w: World, s: Stmt, g: Graph, env: Env, linear: Env, open: Open, t: Trace)
    returns (branch: Graph, inner: Env)
    requires s.Match? && g.Match? && g.scrutinee == s.scrutinee && ArmsMatch(s.cases, g.arms)
      && g.default.Some? == s.default.Some?
    requires Agree(linear, env, Free(s)) && Taken(w, s, env).0.Some?
    ensures inner == Entered(s, Eval(w, s.scrutinee, env), linear)
    ensures Agree(inner, Taken(w, s, env).1, Free(Taken(w, s, env).0.value))
    ensures Run(w, g, linear, open, t) == Run(w, branch, inner, open, t)
    ensures var i := Selected(s, Eval(w, s.scrutinee, env));
      branch == if i.Some? then g.arms[i.value].body else g.default.value
  {
    TakenAgrees(w, s, linear, env);
    var v := Eval(w, s.scrutinee, env);
    if v.Ctor? { ChosenIsMatching(s.cases, g.arms, v.tag, 0); }
    var i := Selected(s, v);
    branch, inner := if i.Some? then g.arms[i.value].body else g.default.value, Entered(s, v, linear);
  }

  lemma {:induction false} PlainRuns(w: World, s: Stmt, env: Env, linear: Env, open: Open, t: Trace)
    requires ResumesOnly(s, Cfg.None) && Agree(linear, env, Free(s)) && Matched(Direct(w, s, env, Stop(), t).trace)
    ensures Run(w, Plain(s), linear, open, t) == Direct(w, s, env, Stop(), t)
    decreases s
  {
    match s
    case Return(e) => EvalAgrees(w, e, linear, env);
    case Let(b, e, next) =>
      EvalAgrees(w, e, linear, env);
      var a := Eval(w, e, env);
      AgreeBind(linear, env, Free(next), b, a);
      PlainRuns(w, next, env[b := a], linear[b := a], open, t);
    case Val(_, _, _) => PlainValRuns(w, s, env, linear, open, t);
    case Call(_, _, _, _) => PlainEventRuns(w, s, env, linear, open, t);
    case If(c, x, y) =>
      EvalAgrees(w, c, linear, env);
      PlainRuns(w, if IsTrue(Eval(w, c, env)) then x else y, env, linear, open, t);
    case Perform(_, _, _, _, _) => PlainEventRuns(w, s, env, linear, open, t);
    case Resume(_, _, _, _) => assert false;
    case Match(_, _, _) =>
      var (taken, inside) := Taken(w, s, env);
      if taken.Some? {
        var branch, inner := MatchRuns(w, s, Plain(s), env, linear, open, t);
        PlainRuns(w, taken.value, inside, inner, open, t);
      }
  }

  lemma {:induction false} PlainEventRuns(w: World, s: Stmt, env: Env, linear: Env, open: Open, t: Trace)
    requires ResumesOnly(s, Cfg.None) && Agree(linear, env, Free(s)) && Matched(Direct(w, s, env, Stop(), t).trace)
    requires s.Call? || s.Perform?
    ensures Run(w, Plain(s), linear, open, t) == Direct(w, s, env, Stop(), t)
    decreases s, 0
  {
    EvalAllAgrees(w, s.args, linear, env);
    var x := if s.Call? then Cfg.Some(s.result) else s.answer;
    var values := EvalAll(w, s.args, env);
    var event := if s.Call? then Called(s.callee, values) else Performed(s.effect, s.operation, values);
    var a := w.answer(t, event);
    AgreeBindOption(linear, env, Free(s.next), x, a);
    PlainRuns(w, s.next, BindOption(env, x, a), BindOption(linear, x, a), open, t + [event]);
  }

  lemma {:induction false} PlainValRuns(w: World, s: Stmt, env: Env, linear: Env, open: Open, t: Trace)
    requires ResumesOnly(s, Cfg.None) && Agree(linear, env, Free(s)) && Matched(Direct(w, s, env, Stop(), t).trace)
    requires s.Val?
    ensures Run(w, Plain(s), linear, open, t) == Direct(w, s, env, Stop(), t)
    decreases s, 0
  {
    var Val(b, graph, next) := s;
    var o := Direct(w, graph, env, Stop(), t);
    DirectExtends(w, next, env[b := o.value], Stop(), o.trace);
    MatchedBefore(o.trace, Direct(w, s, env, Stop(), t).trace);
    PlainRuns(w, graph, env, linear, open, t);
    AgreeBind(linear, env, Free(next), b, o.value);
    PlainRuns(w, next, env[b := o.value], linear[b := o.value], open, o.trace);
  }

  // ---------------------------------------------------------------- clauses left to the dispatcher

  /** The clause as a function whose value is the argument it would resume with. */
  function Dispatched(s: Stmt, k: VarId): Graph
    decreases s
  {
    match s
    case Resume(_, resume, arg, _) => if resume == k then Graph.Return(arg) else Plain(s)
    case Let(b, e, next) => Graph.Let(b, e, Dispatched(next, k))
    case Val(b, graph, next) =>
      if IsIdentityReturn(next, b) then Dispatched(graph, k) else Graph.Val(b, Plain(graph), Dispatched(next, k))
    case If(c, x, y) => Graph.If(c, Dispatched(x, k), Dispatched(y, k))
    case Match(e, cases, default) =>
      Graph.Match(e,
        seq(|cases|, i requires 0 <= i < |cases| => Arm(cases[i].tag, cases[i].binders, Dispatched(cases[i].body, k))),
        if default.Some? then Cfg.Some(Dispatched(default.value, k)) else Cfg.None)
    case _ => Plain(s)
  }

  lemma {:induction false} DispatchedRuns(w: World, s: Stmt, k: VarId, env: Env, linear: Env, open: Open, t: Trace)
    requires TailResumptive(s, k) && ResumesOnly(s, Cfg.Some(k)) && Agree(linear, env, Free(s))
      && Matched(Handed(w, s, env, t).trace)
    ensures Run(w, Dispatched(s, k), linear, open, t) == Handed(w, s, env, t)
    decreases s
  {
    match s
    case Let(b, e, next) =>
      EvalAgrees(w, e, linear, env);
      var a := Eval(w, e, env);
      AgreeBind(linear, env, Free(next), b, a);
      DispatchedRuns(w, next, k, env[b := a], linear[b := a], open, t);
    case Val(_, _, _) => DispatchedValRuns(w, s, k, env, linear, open, t);
    case If(c, x, y) =>
      EvalAgrees(w, c, linear, env);
      DispatchedRuns(w, if IsTrue(Eval(w, c, env)) then x else y, k, env, linear, open, t);
    case Resume(_, _, arg, _) => EvalAgrees(w, arg, linear, env);
    case Match(_, _, _) =>
      var (taken, inside) := Taken(w, s, env);
      if taken.Some? {
        var branch, inner := MatchRuns(w, s, Dispatched(s, k), env, linear, open, t);
        DispatchedRuns(w, taken.value, k, inside, inner, open, t);
      }
  }

  lemma {:induction false} DispatchedValRuns(w: World, s: Stmt, k: VarId, env: Env, linear: Env, open: Open, t: Trace)
    requires TailResumptive(s, k) && ResumesOnly(s, Cfg.Some(k)) && Agree(linear, env, Free(s))
      && Matched(Handed(w, s, env, t).trace)
    requires s.Val?
    ensures Run(w, Dispatched(s, k), linear, open, t) == Handed(w, s, env, t)
    decreases s, 0
  {
    var Val(b, graph, next) := s;
    if IsIdentityReturn(next, b) {
      DispatchedRuns(w, graph, k, env, linear, open, t);
    } else {
      UnmentionedNotResumed(graph, k);
      ResumesNothing(graph, k);
      var o := Direct(w, graph, env, Stop(), t);
      HandedExtends(w, next, env[b := o.value], o.trace);
      MatchedBefore(o.trace, Handed(w, s, env, t).trace);
      PlainRuns(w, graph, env, linear, open, t);
      AgreeBind(linear, env, Free(next), b, o.value);
      DispatchedRuns(w, next, k, env[b := o.value], linear[b := o.value], open, o.trace);
    }
  }

  /** Dispatch refines resumption: answering a perform with the dispatched clause's value and going
      on from the perform gives what the clause gives with that continuation as its `resume`, when
      no match on the way to the `resume` is left without an arm. */
  lemma DispatchRefinesResumption(w: World, s: Stmt, k: VarId, env: Env, open: Open, resumption: Continuation, t: Trace)
    requires TailResumptive(s, k) && ResumesOnly(s, Cfg.Some(k)) && Matched(Handed(w, s, env, t).trace)
    ensures var o := Run(w, Dispatched(s, k), env, open, t);
      Direct(w, s, env, resumption, t) == resumption(o.value, o.trace)
  {
    DispatchedRuns(w, s, k, env, env, open, t);
    TailHandsOver(w, s, k, env, resumption, t);
  }
}
