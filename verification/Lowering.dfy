/** Handler erasure as the compiler runs it: statements are pushed into one arena, code outside the
    handled body is lowered once, and expansion is abandoned over a budget. */
module Lowering {
  import Cfg
  import opened Core
  import opened ClauseAnalysis
  import opened Erasure
  import opened ErasureMeaning
  import opened LinearArena
  import opened ResumeSites
  import L = Linear

  const HANDLER_INLINE_STMT_BUDGET: nat := 200_000

  class LoweringState {
    var stmts: Arena
    var stmtMap: map<Stmt, NodeId>
    var inlineBudgetExhausted: bool
    var nextVar: VarId
    var nextResumption: L.ResumptionId
    var resumeLabels: map<L.ResumptionId, nat>

    /** Each remembered statement stands for its plain lowering. */
    ghost predicate Valid()
      reads this
    {
      && Ordered(stmts)
      && (forall s {:trigger Remembered(s)} :: s in stmtMap ==> Remembered(s))
      && (inlineBudgetExhausted ==> |stmts| > HANDLER_INLINE_STMT_BUDGET)
    }

    ghost predicate Remembered(s: Stmt)
      requires Ordered(stmts) && s in stmtMap
      reads this`stmts, this`stmtMap
    {
      stmtMap[s] < |stmts| && Decode(stmts, stmtMap[s]) == L.Plain(s)
    }

    ghost function Counters(): State
      reads this
    {
      State(nextVar, nextResumption, resumeLabels)
    }

    constructor (freshVarBase: VarId)
      ensures Valid() && stmts == [] && !inlineBudgetExhausted
      ensures Counters() == State(freshVarBase, 0, map[]) && Unlabelled(Counters())
    {
      stmts, stmtMap, inlineBudgetExhausted := [], map[], false;
      nextVar, nextResumption, resumeLabels := freshVarBase, 0, map[];
    }

    method PushStmt(node: Node) returns (id: NodeId)
      requires Valid() && node.Above(|stmts|)
      modifies this`stmts
      ensures Valid() && stmts == old(stmts) + [node] && id == |old(stmts)|
      ensures forall k: NodeId {:trigger Decode(stmts, k)} :: k < |old(stmts)| ==>
        Decode(stmts, k) == old(Decode(stmts, k))
    {
      id := |stmts|;
      PushOrdered(stmts, node);
      ghost var before := stmts;
      stmts := stmts + [node];
      forall k: NodeId | k < |before| ensures Decode(stmts, k) == Decode(before, k) { DecodeGrows(before, stmts, k); }
      forall s | s in stmtMap ensures Remembered(s) { assert old(Remembered(s)); }
    }

    method FreshVar() returns (v: VarId)
      requires Valid()
      modifies this`nextVar
      ensures Valid() && v == old(nextVar) && nextVar == v + 1
    {
      v := nextVar;
      nextVar := nextVar + 1;
    }

    method FreshResumption() returns (id: L.ResumptionId)
      requires Valid()
      modifies this`nextResumption
      ensures Valid() && id == old(nextResumption) && nextResumption == id + 1
      ensures !old(HandedOut(Counters(), Shared(id)))
      ensures forall m :: HandedOut(Counters(), m) <==> old(HandedOut(Counters(), m)) || m == Shared(id)
    {
      id := nextResumption;
      nextResumption := nextResumption + 1;
    }

    method ReserveFor(policy: Policy) returns (reserved: L.ResumptionId)
      requires Valid()
      modifies this`nextResumption
      ensures Valid() && reserved == old(nextResumption) && Counters() == Reserve(policy, old(Counters()))
    {
      reserved := nextResumption;
      if policy == Defunctionalise { reserved := FreshResumption(); }
    }

    /** A site of the continuation that no jump has yet; only this one is handed out. */
    method NextResumeLabel(id: L.ResumptionId) returns (site: nat)
      requires Valid()
      modifies this`resumeLabels
      ensures Valid() && site == old(Counters()).NextLabel(id) && Counters() == old(Counters()).TakeLabel(id)
      ensures !old(HandedOut(Counters(), Site(id, site)))
      ensures forall m :: HandedOut(Counters(), m) <==> old(HandedOut(Counters(), m)) || m == Site(id, site)
    {
      site := if id in resumeLabels then resumeLabels[id] else 0;
      resumeLabels := resumeLabels[id := site + 1];
    }

    method InlineBudgetExceeded() returns (exceeded: bool)
      requires Valid()
      modifies this`inlineBudgetExhausted
      ensures Valid() && exceeded == (|stmts| > HANDLER_INLINE_STMT_BUDGET)
      ensures inlineBudgetExhausted == (old(inlineBudgetExhausted) || exceeded)
    {
      exceeded := |stmts| > HANDLER_INLINE_STMT_BUDGET;
      if exceeded { inlineBudgetExhausted := true; }
    }

    /** Code outside a handled body: each statement once. */
    method LowerStmt(s: Stmt) returns (id: NodeId)
      requires Valid()
      modifies this`stmts, this`stmtMap
      ensures Valid() && old(stmts) <= stmts
      ensures id < |stmts| && Decode(stmts, id) == L.Plain(s)
      ensures s in old(stmtMap) ==> id == old(stmtMap)[s] && stmts == old(stmts)
      ensures !s.Resume? ==> s in stmtMap && stmtMap[s] == id
      decreases s
    {
      if s in stmtMap {
        assert Remembered(s);
        return stmtMap[s];
      }
      match s {
        case Return(e) => id := PushStmt(Node.Return(e));
        case Let(b, e, next) =>
          var n := LowerStmt(next);
          id := PushStmt(Node.Let(b, e, n));
        case Val(b, graph, next) =>
          var g := LowerStmt(graph);
          ghost var between := stmts;
          var n := LowerStmt(next);
          DecodeGrows(between, stmts, g);
          id := PushStmt(Node.Val(b, g, n));
        case Call(r, callee, args, next) =>
          var n := LowerStmt(next);
          id := PushStmt(Node.Call(r, callee, args, n));
        case If(c, x, y) =>
          var tn := LowerStmt(x);
          ghost var between := stmts;
          var en := LowerStmt(y);
          DecodeGrows(between, stmts, tn);
          id := PushStmt(Node.If(c, tn, en));
        case Perform(r, effect, operation, args, next) =>
          var n := LowerStmt(next);
          id := PushStmt(Node.Perform(r, effect, operation, args, n));
        case Resume(_, _, _, next) =>
          id := LowerStmt(next);
          return;
        case Match(_, _, _) => id := LowerPlainMatch(s);
      }
      Remember(s, id);
    }

    method LowerPlainMatch(s: Stmt) returns (id: NodeId)
      requires Valid() && s.Match?
      modifies this`stmts, this`stmtMap
      ensures Valid() && old(stmts) <= stmts
      ensures id < |stmts| && Decode(stmts, id) == L.Plain(s)
      decreases s, 0
    {
      var arms: seq<NodeArm> := [];
      for i := 0 to |s.cases|
        invariant Valid() && old(stmts) <= stmts && ArmsWithin(arms, |stmts|)
        invariant DecodeArms(stmts, arms) == L.Plain(s).arms[..i]
      {
        ghost var before := stmts;
        var body := LowerStmt(s.cases[i].body);
        ArmsGrow(before, stmts, arms);
        arms := arms + [NodeArm(s.cases[i].tag, s.cases[i].binders, body)];
      }
      var default := Cfg.None;
      if s.default.Some? {
        ghost var before := stmts;
        var body := LowerStmt(s.default.value);
        ArmsGrow(before, stmts, arms);
        default := Cfg.Some(body);
      }
      id := PushMatch(s.scrutinee, arms, default);
    }

    method PushMatch(scrutinee: Expr, arms: seq<NodeArm>, default: Option<NodeId>) returns (id: NodeId)
      requires Valid() && ArmsWithin(arms, |stmts|) && Under(default, |stmts|)
      modifies this`stmts
      ensures Valid() && old(stmts) <= stmts && id < |stmts|
      ensures Decode(stmts, id) == L.Graph.Match(scrutinee, old(DecodeArms(stmts, arms)),
        if default.Some? then Cfg.Some(old(Decode(stmts, default.value))) else Cfg.None)
    {
      ghost var before := stmts;
      id := PushStmt(Node.Match(scrutinee, arms, default));
      ArmsGrow(before, stmts, arms);
      if default.Some? { DecodeGrows(before, stmts, default.value); }
      assert Decode(stmts, id).arms == DecodeArms(stmts, arms);
    }

    method Remember(s: Stmt, id: NodeId)
      requires Valid() && id < |stmts| && Decode(stmts, id) == L.Plain(s)
      modifies this`stmtMap
      ensures Valid() && stmtMap == old(stmtMap)[s := id]
    {
      stmtMap := stmtMap[s := id];
      forall r | r in stmtMap ensures Remembered(r) { if r != s { assert old(Remembered(r)); } }
    }

    /** Unless expansion was abandoned, `id` holds what `Lower` says of these inputs, and the counters
        have moved on as it says. */
    twostate predicate Lowered(h: Handler, s: Stmt, context: Option<Context>, answer: Answer, id: NodeId)
      requires Answerable(h)
      reads this
    {
      && Valid() && old(stmts) <= stmts && id < |stmts|
      && (old(inlineBudgetExhausted) ==> inlineBudgetExhausted)
      && (!inlineBudgetExhausted ==>
           Lower(h, ChosenPolicies(h), s, context, answer, old(Counters())) == (Decode(stmts, id), Counters()))
    }

    method LowerUnder(h: Handler, s: Stmt, context: Option<Context>, answer: Answer) returns (id: NodeId)
      requires Valid() && Answerable(h)
      modifies this
      ensures Lowered(h, s, context, answer, id)
      decreases StmtCost(h, s, ContextCost(h, context), AnswerCost(h, answer)), 1
    {
      var exceeded := InlineBudgetExceeded();
      if exceeded {
        id := PushStmt(Node.Error);
        return;
      }
      match s {
        case Return(e) => id := LowerReturn(h, e, answer, context);
        case Let(_, _, _) => id := LowerStep(h, s, context, answer);
        case Call(_, _, _, _) => id := LowerStep(h, s, context, answer);
        case Val(b, graph, next) => id := LowerVal(h, s, context, answer);
        case If(c, x, y) => id := LowerIf(h, s, context, answer);
        case Perform(_, effect, _, _, _) =>
          if effect == h.effect {
            id := LowerPerform(h, s, context, answer);
          } else {
            id := LowerStep(h, s, context, answer);
          }
        case Resume(_, _, _, _) => id := LowerResume(h, s, context, answer);
        case Match(_, _, _) => id := LowerMatch(h, s, context, answer);
      }
    }

    /** The code after the statement, then the statement itself. */
    method LowerStep(h: Handler, s: Stmt, context: Option<Context>, answer: Answer) returns (id: NodeId)
      requires Valid() && Answerable(h) && (s.Let? || s.Call? || (s.Perform? && s.effect != h.effect))
      modifies this
      ensures Lowered(h, s, context, answer, id)
      decreases StmtCost(h, s, ContextCost(h, context), AnswerCost(h, answer)), 0
    {
      var n := LowerUnder(h, s.next, context, answer);
      match s {
        case Let(b, e, _) => id := PushStmt(Node.Let(b, e, n));
        case Call(r, callee, args, _) => id := PushStmt(Node.Call(r, callee, args, n));
        case Perform(r, effect, operation, args, _) => id := PushStmt(Node.Perform(r, effect, operation, args, n));
      }
    }

    method LowerMatch(h: Handler, s: Stmt, context: Option<Context>, answer: Answer) returns (id: NodeId)
      requires Valid() && Answerable(h) && s.Match?
      modifies this
      ensures Lowered(h, s, context, answer, id)
      decreases StmtCost(h, s, ContextCost(h, context), AnswerCost(h, answer)), 0
    {
      var arms := LowerArms(h, s, context, answer);
      var default := Cfg.None;
      if s.default.Some? {
        ghost var before := stmts;
        var body := LowerUnder(h, s.default.value, context, answer);
        ArmsGrow(before, stmts, arms);
        default := Cfg.Some(body);
      }
      id := PushMatch(s.scrutinee, arms, default);
    }

    /** The arms, in turn, each under the counters the one before left. */
    method LowerArms(h: Handler, s: Stmt, context: Option<Context>, answer: Answer) returns (arms: seq<NodeArm>)
      requires Valid() && Answerable(h) && s.Match?
      modifies this
      ensures Valid() && old(stmts) <= stmts && ArmsWithin(arms, |stmts|)
        && (old(inlineBudgetExhausted) ==> inlineBudgetExhausted)
      ensures !inlineBudgetExhausted ==>
        LowerCases(h, ChosenPolicies(h), s, |s.cases|, context, answer, old(Counters()))
          == (DecodeArms(stmts, arms), Counters())
      decreases StmtCost(h, s, ContextCost(h, context), AnswerCost(h, answer)), 0, 0
    {
      ghost var ps, st := ChosenPolicies(h), Counters();
      arms := [];
      assert DecodeArms(stmts, arms) == [];
      for i := 0 to |s.cases|
        invariant Valid() && old(stmts) <= stmts && ArmsWithin(arms, |stmts|) && |arms| == i
        invariant old(inlineBudgetExhausted) ==> inlineBudgetExhausted
        invariant !inlineBudgetExhausted ==>
          LowerCases(h, ps, s, i, context, answer, st) == (DecodeArms(stmts, arms), Counters())
      {
        ghost var before := stmts;
        CaseCosts(h, s, i, ContextCost(h, context), AnswerCost(h, answer));
        var body := LowerUnder(h, s.cases[i].body, context, answer);
        ArmsGrow(before, stmts, arms);
        ArmsMore(stmts, arms, NodeArm(s.cases[i].tag, s.cases[i].binders, body));
        arms := arms + [NodeArm(s.cases[i].tag, s.cases[i].binders, body)];
      }
    }

    method LowerReturn(h: Handler, e: Expr, answer: Answer, context: Option<Context>) returns (id: NodeId)
      requires Valid() && Answerable(h)
      modifies this
      ensures Lowered(h, Stmt.Return(e), context, answer, id)
      decreases StmtCost(h, Stmt.Return(e), ContextCost(h, context), AnswerCost(h, answer)), 0
    {
      match answer {
        case Yield => id := PushStmt(Node.Return(e));
        case HandlerReturn =>
          var body := LowerStmt(h.returnBody);
          id := PushStmt(Node.Let(h.returnParam, e, body));
        case Bind(b, next, bound, outer) =>
          var n := LowerUnder(h, next, bound, outer);
          id := PushStmt(Node.Let(b, e, n));
      }
    }

    method LowerVal(h: Handler, s: Stmt, context: Option<Context>, answer: Answer) returns (id: NodeId)
      requires Valid() && Answerable(h) && s.Val?
      modifies this
      ensures Lowered(h, s, context, answer, id)
      decreases StmtCost(h, s, ContextCost(h, context), AnswerCost(h, answer)), 0
    {
      var Val(b, graph, next) := s;
      if Splices(h, graph, context) {
        id := LowerUnder(h, graph, context, Bind(b, next, context, answer));
      } else {
        var g := LowerUnder(h, graph, context, Yield);
        ghost var between := stmts;
        var n := LowerUnder(h, next, context, answer);
        DecodeGrows(between, stmts, g);
        id := PushStmt(Node.Val(b, g, n));
      }
    }

    method LowerIf(h: Handler, s: Stmt, context: Option<Context>, answer: Answer) returns (id: NodeId)
      requires Valid() && Answerable(h) && s.If?
      modifies this
      ensures Lowered(h, s, context, answer, id)
      decreases StmtCost(h, s, ContextCost(h, context), AnswerCost(h, answer)), 0
    {
      var tn := LowerUnder(h, s.thenBranch, context, answer);
      ghost var between := stmts;
      var en := LowerUnder(h, s.elseBranch, context, answer);
      DecodeGrows(between, stmts, tn);
      id := PushStmt(Node.If(s.cond, tn, en));
    }

    /** The arguments bound around a spliced clause, pushed from the last outwards. */
    method PushParams(params: seq<VarId>, args: seq<Expr>, clause: NodeId) returns (id: NodeId)
      requires Valid() && clause < |stmts|
      modifies this`stmts
      ensures Valid() && old(stmts) <= stmts && id < |stmts|
      ensures Decode(stmts, id) == BindParams(params, args, PairedArgs(params, args), old(Decode(stmts, clause)))
    {
      id := clause;
      var n: nat := PairedArgs(params, args);
      while n > 0
        invariant Valid() && old(stmts) <= stmts && id < |stmts| && n <= PairedArgs(params, args)
        invariant BindParams(params, args, n, Decode(stmts, id))
               == BindParams(params, args, PairedArgs(params, args), old(Decode(stmts, clause)))
      {
        n := n - 1;
        id := PushStmt(Node.Let(params[n], args[n], id));
      }
    }

    method LowerMatchingClause(h: Handler, clause: Clause, args: seq<Expr>, entered: Option<Context>)
      returns (id: NodeId)
      requires Valid() && Answerable(h)
      modifies this
      ensures Valid() && old(stmts) <= stmts && id < |stmts| && (old(inlineBudgetExhausted) ==> inlineBudgetExhausted)
      ensures !inlineBudgetExhausted ==>
        var (body, st) := Lower(h, ChosenPolicies(h), clause.body, entered, Yield, old(Counters()));
        Decode(stmts, id) == BindParams(clause.params, args, PairedArgs(clause.params, args), body) && Counters() == st
      decreases StmtCost(h, clause.body, ContextCost(h, entered), 0), 2
    {
      var body := LowerUnder(h, clause.body, entered, Yield);
      id := PushParams(clause.params, args, body);
    }

    /** The one copy of the continuation that the spliced clause shares, and the name it takes its
        value under. */
    method LowerContinuation(h: Handler, r: Option<VarId>, next: Stmt, context: Option<Context>, answer: Answer,
        clause: NodeId)
      returns (id: NodeId, b: VarId)
      requires Valid() && Answerable(h) && clause < |stmts|
      modifies this
      ensures Valid() && old(stmts) <= stmts && id < |stmts| && (old(inlineBudgetExhausted) ==> inlineBudgetExhausted)
      ensures Decode(stmts, clause) == old(Decode(stmts, clause))
      ensures !inlineBudgetExhausted ==>
        var (rest, st) := Lower(h, ChosenPolicies(h), next, context, answer, old(Counters()));
        Decode(stmts, id) == rest && (b, Counters()) == Binder(r, st)
      decreases StmtCost(h, next, ContextCost(h, context), AnswerCost(h, answer)), 2
    {
      ghost var before := stmts;
      id := LowerUnder(h, next, context, answer);
      DecodeGrows(before, stmts, clause);
      b := PickBinder(r);
    }

    method LowerPerform(h: Handler, s: Stmt, context: Option<Context>, answer: Answer) returns (id: NodeId)
      requires Valid() && Answerable(h) && s.Perform? && s.effect == h.effect
      modifies this
      ensures Lowered(h, s, context, answer, id)
      decreases StmtCost(h, s, ContextCost(h, context), AnswerCost(h, answer)), 0
    {
      var Perform(r, effect, operation, args, next) := s;
      var found := Find(h.clauses, operation);
      if found.None? {
        id := LowerUnder(h, next, context, answer);
        return;
      }
      var clause := h.clauses[found.value];
      var policy := ErasePolicy(clause);
      var entered := ClauseContext(clause, policy, r, next, answer, context,
        State(nextVar, nextResumption, resumeLabels));
      var reserved := ReserveFor(policy);
      assert policy == ChosenPolicies(h)[found.value];
      var lowered := LowerMatchingClause(h, clause, args, entered);
      id := FinishPerform(h, policy, r, next, context, answer, reserved, lowered);
    }

    method FinishPerform(h: Handler, policy: Policy, r: Option<VarId>, next: Stmt, context: Option<Context>,
        answer: Answer, reserved: L.ResumptionId, clause: NodeId)
      returns (id: NodeId)
      requires Valid() && Answerable(h) && clause < |stmts|
      modifies this
      ensures Valid() && old(stmts) <= stmts && id < |stmts| && (old(inlineBudgetExhausted) ==> inlineBudgetExhausted)
      ensures !inlineBudgetExhausted ==>
        (Decode(stmts, id), Counters())
          == Finish(h, ChosenPolicies(h), policy, r, next, context, answer, reserved, old(Decode(stmts, clause)),
            old(Counters()))
      decreases StmtCost(h, next, 0, AnswerCost(h, answer))
        + StmtCost(h, next, ContextCost(h, context), AnswerCost(h, answer)), 3
    {
      match policy {
        case Inline => id := clause;
        case Join =>
          var n, b := LowerContinuation(h, r, next, Cfg.None, answer, clause);
          id := PushStmt(Node.Val(b, clause, n));
        case Defunctionalise =>
          var n, b := LowerContinuation(h, r, next, context, answer, clause);
          id := PushStmt(Node.Resumption(reserved, clause, b, n));
      }
    }

    method PickBinder(answer: Option<VarId>) returns (v: VarId)
      requires Valid()
      modifies this`nextVar
      ensures Valid() && (v, Counters()) == Binder(answer, old(Counters()))
      ensures if answer.Some? then v == answer.value && nextVar == old(nextVar) else v == old(nextVar) < nextVar
    {
      match answer {
        case Some(named) => v := named;
        case None => v := FreshVar();
      }
    }

    method LowerResume(h: Handler, s: Stmt, context: Option<Context>, answer: Answer) returns (id: NodeId)
      requires Valid() && Answerable(h) && s.Resume?
      modifies this
      ensures Lowered(h, s, context, answer, id)
      decreases StmtCost(h, s, ContextCost(h, context), AnswerCost(h, answer)), 0
    {
      var Resume(r, resume, arg, next) := s;
      if context.None? || resume != context.value.resume {
        id := LowerUnder(h, next, context, answer);
        return;
      }
      var c := context.value;
      if c.policy == Join {
        id := PushStmt(Node.Return(arg));
      } else if c.resumption.Some? {
        var site := NextResumeLabel(c.resumption.value);
        var n := LowerUnder(h, next, Cfg.None, answer);
        id := PushStmt(Node.ResumeJump(c.resumption.value, site, arg, r, n));
      } else {
        id := SpliceContinuation(h, s, c, answer);
      }
    }

    /** The perform's continuation in place of the `resume`, and the code after it on its value. */
    method SpliceContinuation(h: Handler, s: Stmt, c: Context, answer: Answer) returns (id: NodeId)
      requires Valid() && Answerable(h) && s.Resume? && s.resume == c.resume && c.policy != Join && c.resumption.None?
      modifies this
      ensures Lowered(h, s, Cfg.Some(c), answer, id)
      decreases StmtCost(h, s, ContextCost(h, Cfg.Some(c)), AnswerCost(h, answer)), 0, 0
    {
      var entry := LowerUnder(h, c.continuation, c.outer, c.answer);
      if c.performed.Some? { entry := PushStmt(Node.Let(c.performed.value, s.arg, entry)); }
      if IsIdentityReturn(s.next, s.result) && c.convention == Straight && !answer.Bind? {
        id := entry;
      } else {
        ghost var between := stmts;
        var n := LowerUnder(h, s.next, Cfg.None, answer);
        DecodeGrows(between, stmts, entry);
        id := PushStmt(Node.Val(s.result, entry, n));
      }
    }

    /** Lowering a handled body within the budget leaves a graph that does what the handle does, and in
        which each shared continuation has an exact dispatch table. */
    method LowerHandled(h: Handler, body: Stmt) returns (id: NodeId)
      requires Valid() && Answerable(h)
      modifies this
      ensures Valid() && old(stmts) <= stmts && id < |stmts|
      ensures !inlineBudgetExhausted ==>
        Decode(stmts, id) == Lower(h, ChosenPolicies(h), body, Cfg.None, HandlerReturn, old(Counters())).0
      ensures !inlineBudgetExhausted && WellFormed(h) && Distinct(h, body, old(nextVar)) && Discharged(h, body)
        && ResumesOnly(body, Cfg.None)
        ==> Erases(Decode(stmts, id), h, body)
      ensures !inlineBudgetExhausted && old(Unlabelled(Counters())) ==>
        Dispatchable(Decode(stmts, id)) && Unlabelled(Counters())
    {
      ghost var st := Counters();
      id := LowerUnder(h, body, Cfg.None, HandlerReturn);
      if !inlineBudgetExhausted && Unlabelled(st) { LowerIsDispatchable(h, ChosenPolicies(h), body, st); }
      if !inlineBudgetExhausted && WellFormed(h) && Distinct(h, body, st.nextVar) && Discharged(h, body)
        && ResumesOnly(body, Cfg.None) {
        forall w: World, env: Env, open: L.Open, t: Trace | Matched(Handled(w, h, body, env, t).trace)
          ensures L.Run(w, Decode(stmts, id), env, open, t) == Handled(w, h, body, env, t)
        {
          ChoiceIsSound(w, h, st.nextVar, body, st, env, open, t);
        }
      }
    }
  }
}
