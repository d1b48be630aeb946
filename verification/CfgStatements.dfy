/** For each form of statement, that the block built for it delivers it. */
module CfgStatements {
  import Cfg
  import opened Core
  import opened CfgRun
  import opened CfgMeaning
  import opened Scopes
  import L = Linear

  // ---------------------------------------------------------------- expressions

  lemma VariableComputes(v: VarId, scope: Scope, lowered: Cfg.Expr)
    requires lowered.Value? && (scope.Get(v).Some? ==> lowered.value == scope.Get(v).value)
    ensures Computes([], lowered, Var(v), scope)
  {
    forall w: World, env: Env, s: State | Matches(env, s.store, Reads(Var(v)), scope.Restrict(Reads(Var(v))))
      ensures ValueOf(w, lowered, RunInstrs(w, [], s).store) == Eval(w, Var(v), env)
    {
      assert v in Reads(Var(v));
    }
  }

  /** Temporaries made afterwards do not disturb what is computed already. */
  lemma ThenComputes(a: seq<Cfg.Instr>, lowered: Cfg.Expr, b: seq<Cfg.Instr>, e: Expr, scope: Scope, mid: ValueId,
      high: ValueId)
    requires Computes(a, lowered, e, scope) && ExprBelow(lowered, mid) && Temporaries(b, mid, high)
    ensures Computes(a + b, lowered, e, scope)
  {
    forall w: World, env: Env, s: State | Matches(env, s.store, Reads(e), scope.Restrict(Reads(e)))
      ensures ValueOf(w, lowered, RunInstrs(w, a + b, s).store) == Eval(w, e, env)
    {
      var between := RunInstrs(w, a, s);
      InstrsJoin(w, a, b, s);
      TemporariesKeep(w, b, mid, high, between);
      ValueSame(w, lowered, between.store, RunInstrs(w, b, between).store, mid);
    }
  }

  /** Temporaries made before do not disturb the scope. */
  lemma LateComputes(a: seq<Cfg.Instr>, b: seq<Cfg.Instr>, lowered: Cfg.Expr, e: Expr, scope: Scope, low: ValueId,
      mid: ValueId)
    requires Temporaries(a, low, mid) && scope.Below(low) && Computes(b, lowered, e, scope)
    ensures Computes(a + b, lowered, e, scope)
  {
    var vars := Reads(e);
    forall w: World, env: Env, s: State | Matches(env, s.store, vars, scope.Restrict(vars))
      ensures ValueOf(w, lowered, RunInstrs(w, a + b, s).store) == Eval(w, e, env)
    {
      var between := RunInstrs(w, a, s);
      InstrsJoin(w, a, b, s);
      TemporariesKeep(w, a, low, mid, s);
      LaterMatches(env, s.store, between.store, vars, scope, low);
      assert RunInstrs(w, b, between) == RunInstrs(w, a + b, s);
    }
  }

  lemma PartComputes(w: World, code: seq<Cfg.Instr>, lowered: Cfg.Expr, e: Expr, scope: Scope, env: Env, s: State,
      vars: set<VarId>)
    requires Computes(code, lowered, e, scope) && Reads(e) <= vars && Matches(env, s.store, vars, scope.Restrict(vars))
    ensures ValueOf(w, lowered, RunInstrs(w, code, s).store) == Eval(w, e, env)
  {
    RestrictMatches(env, s.store, vars, Reads(e), scope);
    assert RunInstrs(w, code, s) == RunInstrs(w, code, s);
  }

  lemma UnaryComputes(op: nat, code: seq<Cfg.Instr>, lowered: Cfg.Expr, e: Expr, scope: Scope)
    requires Computes(code, lowered, e, scope)
    ensures Computes(code, Cfg.Unary(op, lowered), Unary(op, e), scope)
  {
    forall w: World, env: Env,
      s: State | Matches(env, s.store, Reads(Unary(op, e)), scope.Restrict(Reads(Unary(op, e))))
      ensures ValueOf(w, Cfg.Unary(op, lowered), RunInstrs(w, code, s).store) == Eval(w, Unary(op, e), env)
    {
      PartComputes(w, code, lowered, e, scope, env, s, Reads(Unary(op, e)));
    }
  }

  lemma BinaryComputes(op: nat, code: seq<Cfg.Instr>, x: Cfg.Expr, y: Cfg.Expr, lhs: Expr, rhs: Expr, scope: Scope)
    requires Computes(code, x, lhs, scope) && Computes(code, y, rhs, scope)
    ensures Computes(code, Cfg.Binary(op, x, y), Binary(op, lhs, rhs), scope)
  {
    var e := Binary(op, lhs, rhs);
    forall w: World, env: Env, s: State | Matches(env, s.store, Reads(e), scope.Restrict(Reads(e)))
      ensures ValueOf(w, Cfg.Binary(op, x, y), RunInstrs(w, code, s).store) == Eval(w, e, env)
    {
      PartComputes(w, code, x, lhs, scope, env, s, Reads(e));
      PartComputes(w, code, y, rhs, scope, env, s, Reads(e));
    }
  }

  lemma PrimComputes(op: nat, code: seq<Cfg.Instr>, lowered: seq<Cfg.Expr>, es: seq<Expr>, scope: Scope)
    requires ComputesAll(code, lowered, es, scope)
    ensures Computes(code, Cfg.Prim(op, lowered), Prim(op, es), scope)
  {
    forall w: World, env: Env,
      s: State | Matches(env, s.store, Reads(Prim(op, es)), scope.Restrict(Reads(Prim(op, es))))
      ensures ValueOf(w, Cfg.Prim(op, lowered), RunInstrs(w, code, s).store) == Eval(w, Prim(op, es), env)
    {
      assert Reads(Prim(op, es)) == ReadsOfAll(es);
      assert RunInstrs(w, code, s) == RunInstrs(w, code, s);
    }
  }

  /** A temporary for an expression that hands back an owned result. */
  lemma BorrowedComputes(code: seq<Cfg.Instr>, lowered: Cfg.Expr, e: Expr, scope: Scope, result: ValueId)
    requires Computes(code, lowered, e, scope)
    ensures Computes(code + [Cfg.Let(result, lowered)], Cfg.Value(result), e, scope)
  {
    forall w: World, env: Env, s: State | Matches(env, s.store, Reads(e), scope.Restrict(Reads(e)))
      ensures ValueOf(w, Cfg.Value(result), RunInstrs(w, code + [Cfg.Let(result, lowered)], s).store) == Eval(w, e, env)
    {
      assert (code + [Cfg.Let(result, lowered)])[..|code|] == code;
      PartComputes(w, code, lowered, e, scope, env, s, Reads(e));
    }
  }

  lemma AppendComputes(code: seq<Cfg.Instr>, more: seq<Cfg.Instr>, lowered: seq<Cfg.Expr>, last: Cfg.Expr,
      es: seq<Expr>, e: Expr, scope: Scope, low: ValueId, mid: ValueId, high: ValueId)
    requires ComputesAll(code, lowered, es, scope) && ExprsBelow(lowered, mid) && Temporaries(code, low, mid)
    requires Computes(more, last, e, scope) && Temporaries(more, mid, high) && scope.Below(low)
    ensures ComputesAll(code + more, lowered + [last], es + [e], scope)
  {
    LateComputes(code, more, last, e, scope, low, mid);
    var all := ReadsOfAll(es + [e]);
    assert forall i :: 0 <= i < |es| ==> (es + [e])[i] == es[i];
    assert ReadsOfAll(es) <= all;
    assert Reads(e) <= all by { assert (es + [e])[|es|] == e; }
    forall w: World, env: Env, s: State | Matches(env, s.store, all, scope.Restrict(all))
      ensures ValuesOf(w, lowered + [last], RunInstrs(w, code + more, s).store) == EvalAll(w, es + [e], env)
    {
      var between := RunInstrs(w, code, s);
      RestrictMatches(env, s.store, all, ReadsOfAll(es), scope);
      assert ValuesOf(w, lowered, between.store) == EvalAll(w, es, env);
      InstrsJoin(w, code, more, s);
      TemporariesKeep(w, more, mid, high, between);
      var end := RunInstrs(w, code + more, s);
      ValuesSame(w, lowered, between.store, end.store, mid);
      PartComputes(w, code + more, last, e, scope, env, s, all);
      ValuesJoin(w, lowered, last, end.store);
      EvalJoin(w, es, e, env);
    }
  }

  lemma ValuesJoin(w: World, es: seq<Cfg.Expr>, e: Cfg.Expr, store: Store)
    ensures ValuesOf(w, es + [e], store) == ValuesOf(w, es, store) + [ValueOf(w, e, store)]
  {}

  lemma EvalJoin(w: World, es: seq<Expr>, e: Expr, env: Env)
    ensures EvalAll(w, es + [e], env) == EvalAll(w, es, env) + [Eval(w, e, env)]
  {}

  // ---------------------------------------------------------------- statements

  /** The exit, what has been built, and the scope, all from before the value number `n`. */
  ghost predicate Placed(g: Built, b: BlockId, exit: Exit, scope: Scope, n: ValueId) {
    g.Sound() && g.Fits(exit) && g.Predates(exit, n) && scope.Below(n) && b < |g.blocks|
  }

  ghost predicate DeliversIn(g: Built, t: BlockId, graph: L.Graph, exit: Exit, scope: Scope)
    requires g.Sound() && g.Fits(exit)
  {
    t < |g.blocks| && Delivers(g, t, graph, exit, scope.Restrict(L.GraphReads(graph)))
  }

  lemma DeliversNested(g: Built, t: BlockId, graph: L.Graph, exit: Exit, scope: Scope)
    requires g.Sound() && g.Fits(exit) && DeliversIn(g, t, graph, exit, scope)
    ensures t < |g.blocks| && Needed(g.blocks, t) == Owed(g, exit)
  {
    Deliver(g, t, graph, exit, scope.Restrict(L.GraphReads(graph)));
  }

  lemma DeliversRun(w: World, g: Built, t: BlockId, graph: L.Graph, exit: Exit, scope: Scope, env: Env, s: State)
    requires g.Sound() && g.Fits(exit) && DeliversIn(g, t, graph, exit, scope)
    requires Matches(env, s.store, L.GraphReads(graph), scope.Restrict(L.GraphReads(graph)))
    ensures RunBlock(w, g.blocks, t, s) == Hand(w, g, exit, L.Run(w, graph, env, map[], s.trace), s.store)
  {
    Deliver(g, t, graph, exit, scope.Restrict(L.GraphReads(graph)));
  }

  /** How a value leaves a block: `ignored` names it when the exit has no use for it. */
  function Leaving(code: seq<Cfg.Instr>, value: Cfg.Expr, exit: Exit, ignored: ValueId): (seq<Cfg.Instr>,
      Cfg.Terminator) {
    match exit
    case Return => (code, Cfg.Terminator.Return(value))
    case Yield(c) => (code, Cfg.Goto(c, [value]))
    case Discard(c) => (code + [Cfg.Eval(ignored, value)], Cfg.Goto(c, []))
  }

  // ---------------------------------------------------------------- scopes around statements

  lemma TemporariesLevel(code: seq<Cfg.Instr>, low: ValueId, high: ValueId)
    requires Temporaries(code, low, high)
    ensures Level(code)
  {
    forall i | i in code ensures Opens(i).None? && Closes(i).None? {
      var k: nat :| k < |code| && code[k] == i;
      assert code[k].Let?;
    }
  }

  /** A block that opens and closes nothing and goes on to what delivers to the exit. */
  lemma JumpNests(g: Built, b: BlockId, t: BlockId, exit: Exit)
    requires g.Sound() && g.Fits(exit) && b < |g.blocks| && t < |g.blocks| && Level(g.blocks[b].instrs)
    requires g.blocks[b].term.Successors() == [t] && Needed(g.blocks, t) == Owed(g, exit)
    ensures Needed(g.blocks, b) == Owed(g, exit)
  {
    NeededByTarget(g.blocks, b, t);
  }

  /** A block that leaves with a value, after `code`. */
  lemma LeavingNests(g: Built, b: BlockId, code: seq<Cfg.Instr>, value: Cfg.Expr, exit: Exit, ignored: ValueId)
    requires g.Sound() && g.Fits(exit) && b < |g.blocks|
    requires (g.blocks[b].instrs, g.blocks[b].term) == Leaving(code, value, exit, ignored)
    ensures Needed(g.blocks, b) == Before(code, Owed(g, exit))
  {
    match exit
    case Return =>
    case Yield(c) => NeededAlike(g.blocks, b, Owed(g, exit));
    case Discard(c) =>
      NeededAlike(g.blocks, b, Owed(g, exit));
      BeforeJoin(code, [Cfg.Eval(ignored, value)], Owed(g, exit));
      LevelBefore([Cfg.Eval(ignored, value)], Owed(g, exit));
  }

  lemma LeavingHands(w: World, g: Built, b: BlockId, code: seq<Cfg.Instr>, value: Cfg.Expr, exit: Exit,
      ignored: ValueId, n: ValueId, s: State)
    requires g.Sound() && g.Fits(exit) && g.Predates(exit, n) && b < |g.blocks| && n <= ignored
    requires (g.blocks[b].instrs, g.blocks[b].term) == Leaving(code, value, exit, ignored)
    requires SameBelow(s.store, RunInstrs(w, code, s).store, n)
    ensures var after := RunInstrs(w, code, s);
      RunBlock(w, g.blocks, b, s) == Hand(w, g, exit, Outcome(ValueOf(w, value, after.store), after.trace), s.store)
  {
    match exit
    case Return =>
    case Yield(c) => YieldHands(w, g, b, code, value, c, n, s);
    case Discard(c) => DiscardHands(w, g, b, code, value, c, ignored, n, s);
  }

  lemma YieldHands(w: World, g: Built, b: BlockId, code: seq<Cfg.Instr>, value: Cfg.Expr, c: BlockId, n: ValueId,
      s: State)
    requires g.Sound() && g.Fits(Yield(c)) && g.Predates(Yield(c), n) && b < |g.blocks|
    requires g.blocks[b].instrs == code && g.blocks[b].term == Cfg.Goto(c, [value])
    requires SameBelow(s.store, RunInstrs(w, code, s).store, n)
    ensures var after := RunInstrs(w, code, s);
      RunBlock(w, g.blocks, b, s) == Hand(w, g, Yield(c), Outcome(ValueOf(w, value, after.store), after.trace), s.store)
  {
    var after := RunInstrs(w, code, s);
    var v := ValueOf(w, value, after.store);
    OnePassed(w, value, g.blocks[c].params, after.store);
    HandSame(w, g, Yield(c), Outcome(v, after.trace), s.store, after.store, n);
  }

  lemma OnePassed(w: World, value: Cfg.Expr, params: seq<ValueId>, store: Store)
    requires |params| == 1
    ensures Pass(params, ValuesOf(w, [value], store), store) == store[params[0] := ValueOf(w, value, store)]
  {
    var values := ValuesOf(w, [value], store);
    assert values == [ValueOf(w, value, store)];
    assert Core.BindAll(store, params, values, 0) == store;
  }

  lemma DiscardHands(w: World, g: Built, b: BlockId, code: seq<Cfg.Instr>, value: Cfg.Expr, c: BlockId,
      ignored: ValueId, n: ValueId, s: State)
    requires g.Sound() && g.Fits(Discard(c)) && g.Predates(Discard(c), n) && b < |g.blocks| && n <= ignored
    requires g.blocks[b].instrs == code + [Cfg.Eval(ignored, value)] && g.blocks[b].term == Cfg.Goto(c, [])
    requires SameBelow(s.store, RunInstrs(w, code, s).store, n)
    ensures var after := RunInstrs(w, code, s);
      RunBlock(w, g.blocks, b, s)
        == Hand(w, g, Discard(c), Outcome(ValueOf(w, value, after.store), after.trace), s.store)
  {
    var after := RunInstrs(w, code, s);
    var v := ValueOf(w, value, after.store);
    var all := code + [Cfg.Eval(ignored, value)];
    assert all[..|code|] == code;
    var last := State(after.store[ignored := v], after.trace);
    assert RunInstrs(w, all, s) == last;
    assert SameBelow(s.store, last.store, n) by {
      forall x: ValueId | x < n
        ensures Load(s.store, x) == Load(last.store, x)
      {
        assert Load(s.store, x) == Load(after.store, x);
      }
    }
    NoArguments(g.blocks[c].params, last.store);
    HandSame(w, g, Discard(c), Outcome(v, after.trace), s.store, last.store, n);
  }

  lemma ReturnDelivers(g: Built, b: BlockId, code: seq<Cfg.Instr>, lowered: Cfg.Expr, e: Expr, exit: Exit,
      ignored: ValueId, scope: Scope, n: ValueId, high: ValueId)
    requires Placed(g, b, exit, scope, n) && Numbered(code, lowered, n, high) && Computes(code, lowered, e, scope)
      && high <= ignored
    requires (g.blocks[b].instrs, g.blocks[b].term) == Leaving(code, lowered, exit, ignored)
    ensures DeliversIn(g, b, L.Graph.Return(e), exit, scope)
  {
    TemporariesLevel(code, n, high);
    LevelBefore(code, Owed(g, exit));
    LeavingNests(g, b, code, lowered, exit, ignored);
    forall w: World, env: Env, s: State | Matches(env, s.store, Reads(e), scope.Restrict(Reads(e)))
      ensures RunBlock(w, g.blocks, b, s) == Hand(w, g, exit, L.Run(w, L.Graph.Return(e), env, map[], s.trace), s.store)
    {
      TemporariesKeep(w, code, n, high, s);
      PartComputes(w, code, lowered, e, scope, env, s, Reads(e));
      LeavingHands(w, g, b, code, lowered, exit, ignored, n, s);
    }
  }

  lemma UnitNests(g: Built, b: BlockId, code: seq<Cfg.Instr>, exit: Exit, ignored: ValueId)
    requires g.Sound() && g.Fits(exit) && b < |g.blocks| && Level(code)
    requires (g.blocks[b].instrs, g.blocks[b].term) == Leaving(code, Cfg.Literal(Cfg.Unit), exit, ignored)
    ensures Needed(g.blocks, b) == Owed(g, exit)
  {
    LevelBefore(code, Owed(g, exit));
    LeavingNests(g, b, code, Cfg.Literal(Cfg.Unit), exit, ignored);
  }

  /** Code that does nothing. */
  predicate Idle(code: seq<Cfg.Instr>) { code == [] || code == [Cfg.Instr.Error] }

  lemma IdleRuns(w: World, code: seq<Cfg.Instr>, s: State)
    requires Idle(code)
    ensures RunInstrs(w, code, s) == s
  {}

  lemma IdleLevel(code: seq<Cfg.Instr>)
    requires Idle(code)
    ensures Level(code)
  {}

  /** Code that only leaves unit: the missing default of a match, and an error. */
  lemma UnitDelivers(g: Built, b: BlockId, code: seq<Cfg.Instr>, exit: Exit, ignored: ValueId, scope: Scope, n: ValueId)
    requires Placed(g, b, exit, scope, n) && n <= ignored && Idle(code)
    requires (g.blocks[b].instrs, g.blocks[b].term) == Leaving(code, Cfg.Literal(Cfg.Unit), exit, ignored)
    ensures LeavesUnit(g, b, exit)
  {
    IdleLevel(code);
    UnitNests(g, b, code, exit, ignored);
    forall w: World, s: State
      ensures RunBlock(w, g.blocks, b, s) == Hand(w, g, exit, Outcome(Cfg.Unit, s.trace), s.store)
    {
      UnitHands(w, g, b, code, exit, ignored, n, s);
    }
  }

  /** Code the compiler gave up on leaves unit. */
  lemma ErrorDelivers(g: Built, b: BlockId, exit: Exit, scope: Scope)
    requires g.Sound() && g.Fits(exit) && b < |g.blocks| && LeavesUnit(g, b, exit)
    ensures DeliversIn(g, b, L.Graph.Error, exit, scope)
  {}

  lemma UnitHands(w: World, g: Built, b: BlockId, code: seq<Cfg.Instr>, exit: Exit, ignored: ValueId, n: ValueId,
      s: State)
    requires g.Sound() && g.Fits(exit) && g.Predates(exit, n) && b < |g.blocks| && n <= ignored && Idle(code)
    requires (g.blocks[b].instrs, g.blocks[b].term) == Leaving(code, Cfg.Literal(Cfg.Unit), exit, ignored)
    ensures RunBlock(w, g.blocks, b, s) == Hand(w, g, exit, Outcome(Cfg.Unit, s.trace), s.store)
  {
    IdleRuns(w, code, s);
    LeavingHands(w, g, b, code, Cfg.Literal(Cfg.Unit), exit, ignored, n, s);
  }

  lemma NoArguments(params: seq<ValueId>, store: Store)
    ensures Pass(params, [], store) == store
  {}

  lemma LetDelivers(g: Built, b: BlockId, code: seq<Cfg.Instr>, lowered: Cfg.Expr, x: VarId, r: ValueId, e: Expr,
      next: L.Graph, t: BlockId, exit: Exit, scope: Scope, n: ValueId, low: ValueId, high: ValueId)
    requires Placed(g, b, exit, scope, n) && n <= r < low && Numbered(code, lowered, low, high)
      && Computes(code, lowered, e, scope)
    requires g.blocks[b].instrs == code + [Cfg.Let(r, lowered)] && g.blocks[b].term == Cfg.Goto(t, [])
    requires DeliversIn(g, t, next, exit, scope.Bind(x, r))
    ensures DeliversIn(g, b, L.Graph.Let(x, e, next), exit, scope)
  {
    var graph := L.Graph.Let(x, e, next);
    TemporariesLevel(code, low, high);
    DeliversNested(g, t, next, exit, scope.Bind(x, r));
    JumpNests(g, b, t, exit);
    var vars := L.GraphReads(graph);
    forall w: World, env: Env, s: State | Matches(env, s.store, vars, scope.Restrict(vars))
      ensures RunBlock(w, g.blocks, b, s) == Hand(w, g, exit, L.Run(w, graph, env, map[], s.trace), s.store)
    {
      TemporariesKeep(w, code, low, high, s);
      PartComputes(w, code, lowered, e, scope, env, s, vars);
      assert g.blocks[b].instrs[..|code|] == code;
      var v := Eval(w, e, env);
      var after := State(RunInstrs(w, code, s).store[r := v], s.trace);
      assert RunInstrs(w, g.blocks[b].instrs, s) == after;
      NoArguments(g.blocks[t].params, after.store);
      GoesOn(w, g, t, next, exit, scope, x, r, v, env, s.store, after, vars, n);
    }
  }

  /** Once `x` is bound, the code after it runs and leaves its outcome as if from the start. */
  lemma GoesOn(w: World, g: Built, t: BlockId, next: L.Graph, exit: Exit, scope: Scope, x: VarId, r: ValueId,
      v: Value, env: Env, start: Store, after: State, vars: set<VarId>, n: ValueId)
    requires Placed(g, t, exit, scope, n) && DeliversIn(g, t, next, exit, scope.Bind(x, r))
    requires Matches(env, start, vars, scope.Restrict(vars)) && L.GraphReads(next) - {x} <= vars
    requires Load(after.store, r) == v && n <= r && forall y: ValueId :: y < n ==>
      Load(start, y) == Load(after.store, y)
    ensures RunBlock(w, g.blocks, t, after) == Hand(w, g, exit, L.Run(w, next, env[x := v], map[], after.trace), start)
  {
    var needed := L.GraphReads(next);
    RestrictMatches(env, start, vars, needed - {x}, scope);
    BindMatches(env, start, after.store, needed, scope, n, x, r, v);
    DeliversRun(w, g, t, next, exit, scope.Bind(x, r), env[x := v], after);
    HandSame(w, g, exit, L.Run(w, next, env[x := v], map[], after.trace), start, after.store, n);
  }

  lemma ValDelivers(g: Built, t: BlockId, x: VarId, r: ValueId, value: L.Graph, next: L.Graph, c: BlockId,
      tn: BlockId, exit: Exit, scope: Scope, n: ValueId)
    requires Placed(g, t, exit, scope, n) && n <= r && c < |g.blocks|
    requires g.blocks[c] == Cfg.Block([r], [], Cfg.Goto(tn, []))
    requires DeliversIn(g, tn, next, exit, scope.Bind(x, r)) && DeliversIn(g, t, value, Yield(c), scope)
    ensures DeliversIn(g, t, L.Graph.Val(x, value, next), exit, scope)
  {
    var graph := L.Graph.Val(x, value, next);
    DeliversNested(g, tn, next, exit, scope.Bind(x, r));
    DeliversNested(g, t, value, Yield(c), scope);
    JumpNests(g, c, tn, exit);
    var vars := L.GraphReads(graph);
    forall w: World, env: Env, s: State | Matches(env, s.store, vars, scope.Restrict(vars))
      ensures RunBlock(w, g.blocks, t, s) == Hand(w, g, exit, L.Run(w, graph, env, map[], s.trace), s.store)
    {
      RestrictMatches(env, s.store, vars, L.GraphReads(value), scope);
      var o := L.Run(w, value, env, map[], s.trace);
      DeliversRun(w, g, t, value, Yield(c), scope, env, s);
      var after := State(s.store[r := o.value], o.trace);
      NoArguments(g.blocks[tn].params, after.store);
      assert RunBlock(w, g.blocks, c, after) == RunBlock(w, g.blocks, tn, after);
      GoesOn(w, g, tn, next, exit, scope, x, r, o.value, env, s.store, after, vars, n);
    }
  }

  /** Arguments are evaluated in the block, before anything of the statement is bound. */
  lemma ArgumentsCompute(w: World, code: seq<Cfg.Instr>, lowered: seq<Cfg.Expr>, es: seq<Expr>, scope: Scope,
      env: Env, s: State, vars: set<VarId>)
    requires ComputesAll(code, lowered, es, scope) && ReadsOfAll(es) <= vars
      && Matches(env, s.store, vars, scope.Restrict(vars))
    ensures ValuesOf(w, lowered, RunInstrs(w, code, s).store) == EvalAll(w, es, env)
  {
    RestrictMatches(env, s.store, vars, ReadsOfAll(es), scope);
    assert RunInstrs(w, code, s) == RunInstrs(w, code, s);
  }

  lemma CallDelivers(g: Built, b: BlockId, code: seq<Cfg.Instr>, lowered: seq<Cfg.Expr>, r: VarId, x: ValueId,
      callee: nat, args: seq<Expr>, next: L.Graph, c: BlockId, t: BlockId, exit: Exit, scope: Scope, n: ValueId,
      low: ValueId, high: ValueId)
    requires Placed(g, b, exit, scope, n) && n <= x < low <= high && Temporaries(code, low, high)
      && ComputesAll(code, lowered, args, scope)
    requires g.blocks[b].instrs == code && g.blocks[b].term == Cfg.Terminator.Call(callee, lowered, x, c)
    requires c < |g.blocks| && g.blocks[c] == Cfg.Block([x], [], Cfg.Goto(t, []))
    requires DeliversIn(g, t, next, exit, scope.Bind(r, x))
    ensures DeliversIn(g, b, L.Graph.Call(r, callee, args, next), exit, scope)
  {
    var graph := L.Graph.Call(r, callee, args, next);
    TemporariesLevel(code, low, high);
    DeliversNested(g, t, next, exit, scope.Bind(r, x));
    JumpNests(g, c, t, exit);
    JumpNests(g, b, c, exit);
    var vars := L.GraphReads(graph);
    forall w: World, env: Env, s: State | Matches(env, s.store, vars, scope.Restrict(vars))
      ensures RunBlock(w, g.blocks, b, s) == Hand(w, g, exit, L.Run(w, graph, env, map[], s.trace), s.store)
    {
      TemporariesKeep(w, code, low, high, s);
      ArgumentsCompute(w, code, lowered, args, scope, env, s, vars);
      var event := Called(callee, EvalAll(w, args, env));
      var v := w.answer(s.trace, event);
      var after := State(RunInstrs(w, code, s).store[x := v], s.trace + [event]);
      NoArguments(g.blocks[t].params, after.store);
      assert RunBlock(w, g.blocks, b, s) == RunBlock(w, g.blocks, c, after) == RunBlock(w, g.blocks, t, after);
      GoesOn(w, g, t, next, exit, scope, r, x, v, env, s.store, after, vars, n);
    }
  }

  function ScopeOption(scope: Scope, r: Option<VarId>, x: ValueId): Scope {
    match r
    case None => scope
    case Some(v) => scope.Bind(v, x)
  }

  function ValueOption(r: Option<VarId>, x: ValueId): Option<ValueId> { if r.Some? then Cfg.Some(x) else Cfg.None }

  /** A perform shows the world its event, and goes on with the answer. */
  lemma PerformSteps(w: World, g: Built, b: BlockId, effect: nat, operation: nat, lowered: seq<Cfg.Expr>,
      x: Option<ValueId>, c: BlockId, t: BlockId, s: State)
    requires g.Sound() && b < |g.blocks| && c < |g.blocks| && t < |g.blocks|
    requires g.blocks[b].term == Cfg.Terminator.Perform(effect, operation, lowered, x, c)
    requires g.blocks[c].instrs == [] && g.blocks[c].term == Cfg.Goto(t, [])
    ensures var after := RunInstrs(w, g.blocks[b].instrs, s);
      var event := Performed(effect, operation, ValuesOf(w, lowered, after.store));
      RunBlock(w, g.blocks, b, s) == RunBlock(w, g.blocks, t,
        State(BindOption(after.store, x, w.answer(after.trace, event)), after.trace + [event]))
  {
    var after := RunInstrs(w, g.blocks[b].instrs, s);
    var event := Performed(effect, operation, ValuesOf(w, lowered, after.store));
    var next := State(BindOption(after.store, x, w.answer(after.trace, event)), after.trace + [event]);
    NoArguments(g.blocks[t].params, next.store);
    assert RunBlock(w, g.blocks, b, s) == RunBlock(w, g.blocks, c, next);
  }

  lemma PerformHands(w: World, g: Built, b: BlockId, code: seq<Cfg.Instr>, lowered: seq<Cfg.Expr>, r: Option<VarId>,
      x: ValueId, effect: nat, operation: nat, args: seq<Expr>, next: L.Graph, c: BlockId, t: BlockId, exit: Exit,
      scope: Scope, n: ValueId, low: ValueId, high: ValueId, env: Env, s: State)
    requires Placed(g, b, exit, scope, n) && n <= x && n <= low <= high && (r.Some? ==> x < low)
    requires Temporaries(code, low, high) && ComputesAll(code, lowered, args, scope)
    requires g.blocks[b].instrs == code
      && g.blocks[b].term == Cfg.Terminator.Perform(effect, operation, lowered, ValueOption(r, x), c)
    requires c < |g.blocks| && g.blocks[c].instrs == [] && g.blocks[c].term == Cfg.Goto(t, [])
    requires DeliversIn(g, t, next, exit, ScopeOption(scope, r, x))
    requires var vars := L.GraphReads(L.Graph.Perform(r, effect, operation, args, next));
      Matches(env, s.store, vars, scope.Restrict(vars))
    ensures RunBlock(w, g.blocks, b, s)
      == Hand(w, g, exit, L.Run(w, L.Graph.Perform(r, effect, operation, args, next), env, map[], s.trace), s.store)
  {
    var vars := L.GraphReads(L.Graph.Perform(r, effect, operation, args, next));
    TemporariesKeep(w, code, low, high, s);
    ArgumentsCompute(w, code, lowered, args, scope, env, s, vars);
    PerformSteps(w, g, b, effect, operation, lowered, ValueOption(r, x), c, t, s);
    var event := Performed(effect, operation, EvalAll(w, args, env));
    var v := w.answer(s.trace, event);
    var after := State(BindOption(RunInstrs(w, code, s).store, ValueOption(r, x), v), s.trace + [event]);
    match r
    case Some(name) => GoesOn(w, g, t, next, exit, scope, name, x, v, env, s.store, after, vars, n);
    case None => GoesOnUnbound(w, g, t, next, exit, scope, env, s.store, after, vars, n);
  }

  lemma PerformDelivers(g: Built, b: BlockId, code: seq<Cfg.Instr>, lowered: seq<Cfg.Expr>, r: Option<VarId>,
      x: ValueId, effect: nat, operation: nat, args: seq<Expr>, next: L.Graph, c: BlockId, t: BlockId, exit: Exit,
      scope: Scope, n: ValueId, low: ValueId, high: ValueId)
    requires Placed(g, b, exit, scope, n) && n <= x && n <= low <= high && (r.Some? ==> x < low)
    requires Temporaries(code, low, high) && ComputesAll(code, lowered, args, scope)
    requires g.blocks[b].instrs == code
      && g.blocks[b].term == Cfg.Terminator.Perform(effect, operation, lowered, ValueOption(r, x), c)
    requires c < |g.blocks| && g.blocks[c].instrs == [] && g.blocks[c].term == Cfg.Goto(t, [])
    requires DeliversIn(g, t, next, exit, ScopeOption(scope, r, x))
    ensures DeliversIn(g, b, L.Graph.Perform(r, effect, operation, args, next), exit, scope)
  {
    var graph := L.Graph.Perform(r, effect, operation, args, next);
    TemporariesLevel(code, low, high);
    DeliversNested(g, t, next, exit, ScopeOption(scope, r, x));
    JumpNests(g, c, t, exit);
    JumpNests(g, b, c, exit);
    var vars := L.GraphReads(graph);
    forall w: World, env: Env, s: State | Matches(env, s.store, vars, scope.Restrict(vars))
      ensures RunBlock(w, g.blocks, b, s) == Hand(w, g, exit, L.Run(w, graph, env, map[], s.trace), s.store)
    {
      PerformHands(w, g, b, code, lowered, r, x, effect, operation, args, next, c, t, exit, scope, n, low, high, env,
        s);
    }
  }

  /** The same where nothing is bound in between. */
  lemma GoesOnUnbound(w: World, g: Built, t: BlockId, next: L.Graph, exit: Exit, scope: Scope, env: Env, start: Store,
      after: State, vars: set<VarId>, n: ValueId)
    requires Placed(g, t, exit, scope, n) && DeliversIn(g, t, next, exit, scope)
    requires Matches(env, start, vars, scope.Restrict(vars)) && L.GraphReads(next) <= vars
      && SameBelow(start, after.store, n)
    ensures RunBlock(w, g.blocks, t, after) == Hand(w, g, exit, L.Run(w, next, env, map[], after.trace), start)
  {
    RestrictMatches(env, start, vars, L.GraphReads(next), scope);
    LaterMatches(env, start, after.store, L.GraphReads(next), scope, n);
    var o := L.Run(w, next, env, map[], after.trace);
    DeliversRun(w, g, t, next, exit, scope, env, after);
    HandSame(w, g, exit, o, start, after.store, n);
  }

  lemma IfRuns(w: World, g: Built, b: BlockId, code: seq<Cfg.Instr>, lowered: Cfg.Expr, c: Expr, x: L.Graph,
      y: L.Graph, tx: BlockId, ty: BlockId, exit: Exit, scope: Scope, n: ValueId, low: ValueId, high: ValueId,
      env: Env, s: State)
    requires Placed(g, b, exit, scope, n) && n <= low && Numbered(code, lowered, low, high)
      && Computes(code, lowered, c, scope)
    requires g.blocks[b].instrs == code && g.blocks[b].term == Cfg.Branch(lowered, tx, ty)
    requires DeliversIn(g, tx, x, exit, scope) && DeliversIn(g, ty, y, exit, scope)
    requires var vars := L.GraphReads(L.Graph.If(c, x, y)); Matches(env, s.store, vars, scope.Restrict(vars))
    ensures RunBlock(w, g.blocks, b, s) ==
      Hand(w, g, exit, L.Run(w, L.Graph.If(c, x, y), env, map[], s.trace), s.store)
  {
    var vars := L.GraphReads(L.Graph.If(c, x, y));
    TemporariesKeep(w, code, low, high, s);
    PartComputes(w, code, lowered, c, scope, env, s, vars);
    var after := RunInstrs(w, code, s);
    if IsTrue(Eval(w, c, env)) {
      GoesOnUnbound(w, g, tx, x, exit, scope, env, s.store, after, vars, n);
    } else {
      GoesOnUnbound(w, g, ty, y, exit, scope, env, s.store, after, vars, n);
    }
  }

  lemma IfDelivers(g: Built, b: BlockId, code: seq<Cfg.Instr>, lowered: Cfg.Expr, c: Expr, x: L.Graph, y: L.Graph,
      tx: BlockId, ty: BlockId, exit: Exit, scope: Scope, n: ValueId, low: ValueId, high: ValueId)
    requires Placed(g, b, exit, scope, n) && n <= low && Numbered(code, lowered, low, high)
      && Computes(code, lowered, c, scope)
    requires g.blocks[b].instrs == code && g.blocks[b].term == Cfg.Branch(lowered, tx, ty)
    requires DeliversIn(g, tx, x, exit, scope) && DeliversIn(g, ty, y, exit, scope)
    ensures DeliversIn(g, b, L.Graph.If(c, x, y), exit, scope)
  {
    var graph := L.Graph.If(c, x, y);
    TemporariesLevel(code, low, high);
    LevelBefore(code, Owed(g, exit));
    DeliversNested(g, tx, x, exit, scope);
    DeliversNested(g, ty, y, exit, scope);
    NeededAlike(g.blocks, b, Owed(g, exit));
    var vars := L.GraphReads(graph);
    forall w: World, env: Env, s: State | Matches(env, s.store, vars, scope.Restrict(vars))
      ensures RunBlock(w, g.blocks, b, s) == Hand(w, g, exit, L.Run(w, graph, env, map[], s.trace), s.store)
    {
      IfRuns(w, g, b, code, lowered, c, x, y, tx, ty, exit, scope, n, low, high, env, s);
    }
  }

  // ---------------------------------------------------------------- handlers and stages

  /** The block that closes a scope, when there is code after it. */
  lemma ClosesThenGoesOn(w: World, g: Built, a: BlockId, t: BlockId, next: L.Graph, exit: Exit, scope: Scope,
      n: ValueId, env: Env, s: State, closing: seq<Cfg.Instr>, event: Event, o: Outcome)
    requires Placed(g, a, exit, scope, n) && DeliversIn(g, t, next, exit, scope)
    requires g.blocks[a] == Cfg.Block([], closing, Cfg.Goto(t, []))
    requires RunInstrs(w, closing, State(s.store, o.trace)) == State(s.store, o.trace + [event])
    requires Matches(env, s.store, L.GraphReads(next), scope.Restrict(L.GraphReads(next)))
    ensures Hand(w, g, Discard(a), o, s.store)
      == Hand(w, g, exit, L.Run(w, next, env, map[], o.trace + [event]), s.store)
  {
    var after := State(s.store, o.trace + [event]);
    NoArguments(g.blocks[t].params, s.store);
    assert RunBlock(w, g.blocks, a, State(s.store, o.trace)) == RunBlock(w, g.blocks, t, after);
    GoesOnUnbound(w, g, t, next, exit, scope, env, s.store, after, L.GraphReads(next), n);
  }

  /** The block that closes a scope and forwards its value. */
  lemma ClosesAndForwards(w: World, g: Built, a: BlockId, p: ValueId, exit: Exit, ignored: ValueId, n: ValueId,
      store: Store, closing: seq<Cfg.Instr>, event: Event, o: Outcome)
    requires g.Sound() && g.Fits(exit) && g.Predates(exit, n) && a < |g.blocks| && n <= p && n <= ignored
    requires g.blocks[a].params == [p]
      && (g.blocks[a].instrs, g.blocks[a].term) == Leaving(closing, Cfg.Value(p), exit, ignored)
    requires RunInstrs(w, closing, State(store[p := o.value], o.trace)) == State(store[p := o.value], o.trace + [event])
    ensures Hand(w, g, Yield(a), o, store) == Hand(w, g, exit, Outcome(o.value, o.trace + [event]), store)
  {
    var s := State(store[p := o.value], o.trace);
    LeavingHands(w, g, a, closing, Cfg.Value(p), exit, ignored, n, s);
    HandSame(w, g, exit, Outcome(o.value, o.trace + [event]), s.store, store, n);
  }

  lemma TwoInstrs(w: World, instrs: seq<Cfg.Instr>, s: State)
    requires 1 <= |instrs| <= 2
    ensures |instrs| == 1 ==> RunInstrs(w, instrs, s) == Step(w, instrs[0], s)
    ensures |instrs| == 2 ==> RunInstrs(w, instrs, s) == Step(w, instrs[1], Step(w, instrs[0], s))
  {
    var first := [instrs[0]];
    assert first[..0] == [];
    assert RunInstrs(w, first, s) == Step(w, instrs[0], s);
    assert if |instrs| == 1 then instrs == first else instrs[..1] == first;
  }

  lemma TwoBefore(code: seq<Cfg.Instr>, s: Option<Stack>)
    requires 1 <= |code| <= 2
    ensures |code| == 1 ==> Before(code, s) == Undone(code[0], s)
    ensures |code| == 2 ==> Before(code, s) == Undone(code[0], Undone(code[1], s))
  {
    assert if |code| == 1 then code[..0] == [] else code[..1] == [code[0]] && [code[0]][..0] == [];
  }

  /** A handler's or a stage's scope: what opens and closes it, and what the world sees of that. */
  datatype Bracket = HandlerScope(region: nat, handler: nat, effect: nat) | StageScope(stage: nat) {
    function Opening(): seq<Cfg.Instr> {
      match this
      case HandlerScope(region, handler, effect) => [Cfg.RegionEnter(region), Cfg.HandlerEnter(handler, effect)]
      case StageScope(stage) => [Cfg.StageEnter(stage)]
    }

    function Closing(): seq<Cfg.Instr> {
      match this
      case HandlerScope(region, handler, effect) => [Cfg.HandlerExit(handler, effect), Cfg.RegionExit(region)]
      case StageScope(stage) => [Cfg.StageExit(stage)]
    }

    /** Going backwards, the opening undoes the closing. */
    lemma OpensWhatItCloses(s: Option<Stack>)
      ensures Before(Opening(), Before(Closing(), s)) == s
    {
      TwoBefore(Closing(), s);
      TwoBefore(Opening(), Before(Closing(), s));
    }

    function Opened(): Event {
      match this
      case HandlerScope(_, _, effect) => HandlerOpened(effect)
      case StageScope(stage) => StageOpened(stage)
    }

    function Closed(): Event {
      match this
      case HandlerScope(_, _, effect) => HandlerClosed(effect)
      case StageScope(stage) => StageClosed(stage)
    }

    function Around(body: L.Graph, after: Option<L.Graph>): L.Graph {
      match this
      case HandlerScope(_, _, effect) => L.Graph.Handle(effect, body, after)
      case StageScope(stage) => L.Graph.Stage(stage, body, after)
    }

    lemma OpeningRuns(w: World, s: State)
      ensures RunInstrs(w, Opening(), s) == State(s.store, s.trace + [Opened()])
    {
      TwoInstrs(w, Opening(), s);
    }

    lemma ClosingRuns(w: World, s: State)
      ensures RunInstrs(w, Closing(), s) == State(s.store, s.trace + [Closed()])
    {
      TwoInstrs(w, Closing(), s);
    }

    lemma AroundRuns(w: World, body: L.Graph, after: Option<L.Graph>, env: Env, t: Trace)
      ensures var o := L.Run(w, body, env, map[], t + [Opened()]);
        L.Run(w, Around(body, after), env, map[], t) ==
          if after.Some? then L.Run(w, after.value, env, map[], o.trace + [Closed()])
            else Outcome(o.value, o.trace + [Closed()])
    {
      match this
      case HandlerScope(_, _, effect) => assert Around(body, after) == L.Graph.Handle(effect, body, after);
      case StageScope(stage) => assert Around(body, after) == L.Graph.Stage(stage, body, after);
    }

    lemma AroundReads(body: L.Graph, after: Option<L.Graph>)
      ensures L.GraphReads(Around(body, after)) == L.GraphReads(body) + L.AfterReads(after)
    {
      match this
      case HandlerScope(_, _, effect) => assert Around(body, after) == L.Graph.Handle(effect, body, after);
      case StageScope(stage) => assert Around(body, after) == L.Graph.Stage(stage, body, after);
    }
  }

  lemma BracketThenDelivers(g: Built, k: Bracket, b: BlockId, body: L.Graph, tb: BlockId, a: BlockId, next: L.Graph,
      t: BlockId, exit: Exit, scope: Scope, n: ValueId)
    requires Placed(g, b, exit, scope, n) && a < |g.blocks|
    requires g.blocks[b] == Cfg.Block([], k.Opening(), Cfg.Goto(tb, []))
    requires g.blocks[a] == Cfg.Block([], k.Closing(), Cfg.Goto(t, []))
    requires DeliversIn(g, tb, body, Discard(a), scope) && DeliversIn(g, t, next, exit, scope)
    ensures DeliversIn(g, b, k.Around(body, Cfg.Some(next)), exit, scope)
  {
    var graph := k.Around(body, Cfg.Some(next));
    DeliversNested(g, t, next, exit, scope);
    DeliversNested(g, tb, body, Discard(a), scope);
    NeededAlike(g.blocks, a, Owed(g, exit));
    NeededAlike(g.blocks, b, Before(k.Closing(), Owed(g, exit)));
    k.OpensWhatItCloses(Owed(g, exit));
    var vars := L.GraphReads(graph);
    k.AroundReads(body, Cfg.Some(next));
    forall w: World, env: Env, s: State | Matches(env, s.store, vars, scope.Restrict(vars))
      ensures RunBlock(w, g.blocks, b, s) == Hand(w, g, exit, L.Run(w, graph, env, map[], s.trace), s.store)
    {
      RestrictMatches(env, s.store, vars, L.GraphReads(body), scope);
      RestrictMatches(env, s.store, vars, L.GraphReads(next), scope);
      k.AroundRuns(w, body, Cfg.Some(next), env, s.trace);
      BracketOpens(w, g, k, b, body, tb, Discard(a), scope, env, s);
      var o := L.Run(w, body, env, map[], s.trace + [k.Opened()]);
      k.ClosingRuns(w, State(s.store, o.trace));
      ClosesThenGoesOn(w, g, a, t, next, exit, scope, n, env, s, k.Closing(), k.Closed(), o);
    }
  }

  lemma BracketOpens(w: World, g: Built, k: Bracket, b: BlockId, body: L.Graph, tb: BlockId, inner: Exit,
      scope: Scope, env: Env, s: State)
    requires g.Sound() && g.Fits(inner) && b < |g.blocks| && DeliversIn(g, tb, body, inner, scope)
    requires g.blocks[b] == Cfg.Block([], k.Opening(), Cfg.Goto(tb, []))
    requires Matches(env, s.store, L.GraphReads(body), scope.Restrict(L.GraphReads(body)))
    ensures RunBlock(w, g.blocks, b, s)
      == Hand(w, g, inner, L.Run(w, body, env, map[], s.trace + [k.Opened()]), s.store)
  {
    k.OpeningRuns(w, s);
    NoArguments(g.blocks[tb].params, s.store);
    assert RunBlock(w, g.blocks, b, s) == RunBlock(w, g.blocks, tb, State(s.store, s.trace + [k.Opened()]));
    DeliversRun(w, g, tb, body, inner, scope, env, State(s.store, s.trace + [k.Opened()]));
  }

  lemma BracketForwardDelivers(g: Built, k: Bracket, b: BlockId, body: L.Graph, tb: BlockId, a: BlockId, p: ValueId,
      ignored: ValueId, exit: Exit, scope: Scope, n: ValueId)
    requires Placed(g, b, exit, scope, n) && a < |g.blocks| && n <= p && n <= ignored
    requires g.blocks[b] == Cfg.Block([], k.Opening(), Cfg.Goto(tb, []))
    requires g.blocks[a].params == [p]
      && (g.blocks[a].instrs, g.blocks[a].term) == Leaving(k.Closing(), Cfg.Value(p), exit, ignored)
    requires DeliversIn(g, tb, body, Yield(a), scope)
    ensures DeliversIn(g, b, k.Around(body, Cfg.None), exit, scope)
  {
    var graph := k.Around(body, Cfg.None);
    LeavingNests(g, a, k.Closing(), Cfg.Value(p), exit, ignored);
    DeliversNested(g, tb, body, Yield(a), scope);
    NeededAlike(g.blocks, b, Before(k.Closing(), Owed(g, exit)));
    k.OpensWhatItCloses(Owed(g, exit));
    var vars := L.GraphReads(graph);
    k.AroundReads(body, Cfg.None);
    assert vars == L.GraphReads(body);
    forall w: World, env: Env, s: State | Matches(env, s.store, vars, scope.Restrict(vars))
      ensures RunBlock(w, g.blocks, b, s) == Hand(w, g, exit, L.Run(w, graph, env, map[], s.trace), s.store)
    {
      k.AroundRuns(w, body, Cfg.None, env, s.trace);
      BracketOpens(w, g, k, b, body, tb, Yield(a), scope, env, s);
      var o := L.Run(w, body, env, map[], s.trace + [k.Opened()]);
      k.ClosingRuns(w, State(s.store[p := o.value], o.trace));
      ClosesAndForwards(w, g, a, p, exit, ignored, n, s.store, k.Closing(), k.Closed(), o);
    }
  }

  // ---------------------------------------------------------------- matches

  /** The scope of an arm: its binders, in order, bound to the values numbered from `first`. */
  function ArmScope(scope: Scope, binders: seq<VarId>, values: seq<ValueId>, n: nat): Scope
    requires n <= |binders| && n <= |values|
  {
    if n == 0 then scope else ArmScope(scope, binders, values, n - 1).Bind(binders[n - 1], values[n - 1])
  }

  /** Fresh values, each used for one binder. */
  predicate FreshValues(values: seq<ValueId>, low: ValueId, high: ValueId) {
    && (forall i :: 0 <= i < |values| ==> low <= values[i] < high)
    && (forall i, j :: 0 <= i < j < |values| ==> values[i] < values[j])
  }

  lemma {:induction false} ArmScopeBelow(scope: Scope, binders: seq<VarId>, values: seq<ValueId>, k: nat, n: ValueId)
    requires k <= |binders| && k <= |values| && scope.Below(n) && forall i :: 0 <= i < k ==> values[i] < n
    ensures ArmScope(scope, binders, values, k).Below(n)
  {
    if k > 0 { ArmScopeBelow(scope, binders, values, k - 1, n); }
  }

  lemma {:induction false} ArmMatches(env: Env, start: Store, vars: set<VarId>, scope: Scope, n: ValueId,
      binders: seq<VarId>, values: seq<ValueId>, high: ValueId, fields: seq<Value>, k: nat)
    requires k <= |binders| && |values| == |binders| == |fields| && FreshValues(values, n, high)
    requires scope.Below(n)
      && Matches(env, start, vars - Names(binders[..k]), scope.Restrict(vars - Names(binders[..k])))
    ensures SameBelow(start, BindAll(start, values, fields, k), n)
    ensures Matches(BindAll(env, binders, fields, k), BindAll(start, values, fields, k), vars,
      ArmScope(scope, binders, values, k).Restrict(vars))
    decreases k
  {
    if k == 0 {
      assert vars - Names(binders[..0]) == vars;
    } else {
      var b, r := binders[k - 1], values[k - 1];
      assert (vars - {b}) - Names(binders[..k - 1]) == vars - Names(binders[..k]) by {
        assert binders[..k] == binders[..k - 1] + [b];
      }
      ArmMatches(env, start, vars - {b}, scope, n, binders, values, high, fields, k - 1);
      var before := BindAll(start, values, fields, k - 1);
      scope.BelowMore(n, r);
      ArmScopeBelow(scope, binders, values, k - 1, r);
      forall v: ValueId | v < n
        ensures Load(start, v) == Load(before[r := fields[k - 1]], v)
      {
        assert Load(start, v) == Load(before, v);
      }
      BindMatches(BindAll(env, binders, fields, k - 1), before, before[r := fields[k - 1]], vars,
        ArmScope(scope, binders, values, k - 1), r, b, r, fields[k - 1]);
    }
  }

  /** An arm is a block that takes its fields and goes on to its body. */
  ghost predicate ArmBuilt(g: Built, arm: L.Arm, lowered: Cfg.MatchArm, exit: Exit, scope: Scope, n: ValueId,
      high: ValueId)
    requires g.Sound() && g.Fits(exit)
  {
    && lowered.tag == arm.tag && |lowered.binders| == |arm.binders| && FreshValues(lowered.binders, n, high)
    && lowered.target < |g.blocks| && g.blocks[lowered.target].params == lowered.binders
      && g.blocks[lowered.target].instrs == []
    && g.blocks[lowered.target].term.Goto? && g.blocks[lowered.target].term.args == []
    && DeliversIn(g, g.blocks[lowered.target].term.target, arm.body, exit,
      ArmScope(scope, arm.binders, lowered.binders, |arm.binders|))
  }

  ghost predicate ArmsBuilt(g: Built, arms: seq<L.Arm>, lowered: seq<Cfg.MatchArm>, exit: Exit, scope: Scope,
      n: ValueId, high: ValueId)
    requires g.Sound() && g.Fits(exit)
  {
    |lowered| == |arms| &&
    forall i: nat {:trigger ArmBuilt(g, arms[i], lowered[i], exit, scope, n, high)} :: i < |arms| ==>
      ArmBuilt(g, arms[i], lowered[i], exit, scope, n, high)
  }

  ghost predicate LeavesUnit(g: Built, t: BlockId, exit: Exit)
    requires g.Sound() && g.Fits(exit) && t < |g.blocks|
  {
    Needed(g.blocks, t) == Owed(g, exit) &&
    forall w: World, s: State {:trigger RunBlock(w, g.blocks, t, s)} ::
      RunBlock(w, g.blocks, t, s) == Hand(w, g, exit, Outcome(Cfg.Unit, s.trace), s.store)
  }

  ghost predicate DefaultBuilt(g: Built, default: Option<L.Graph>, t: BlockId, exit: Exit, scope: Scope)
    requires g.Sound() && g.Fits(exit)
  {
    t < |g.blocks| && if default.Some? then DeliversIn(g, t, default.value, exit, scope) else LeavesUnit(g, t, exit)
  }

  lemma {:induction false} SelectedIsMatching(arms: seq<L.Arm>, lowered: seq<Cfg.MatchArm>, tag: nat, i: nat)
    requires |lowered| == |arms| && i <= |arms| && forall k :: 0 <= k < |arms| ==> lowered[k].tag == arms[k].tag
    ensures SelectedFrom(lowered, tag, i) == L.MatchingFrom(arms, tag, i)
    decreases |arms| - i
  {
    if i < |arms| && arms[i].tag != tag { SelectedIsMatching(arms, lowered, tag, i + 1); }
  }

  lemma {:induction false} ArmReadsWithin(arms: seq<L.Arm>, n: nat, i: nat)
    requires i < n <= |arms|
    ensures L.GraphReads(arms[i].body) - Names(arms[i].binders) <= L.ArmsRead(arms, n)
  {
    if i < n - 1 { ArmReadsWithin(arms, n - 1, i); }
  }

  lemma ArmRuns(w: World, g: Built, arm: L.Arm, lowered: Cfg.MatchArm, exit: Exit, scope: Scope, n: ValueId,
      high: ValueId, env: Env, start: Store, s: State, fields: seq<Value>, vars: set<VarId>)
    requires Placed(g, lowered.target, exit, scope, n) && ArmBuilt(g, arm, lowered, exit, scope, n, high)
    requires Matches(env, start, vars, scope.Restrict(vars)) && L.GraphReads(arm.body) - Names(arm.binders) <= vars
      && SameBelow(start, s.store, n)
    ensures RunBlock(w, g.blocks, lowered.target, s.(store := BindFields(s.store, lowered.binders, fields)))
         == Hand(w, g, exit, L.Run(w, arm.body, BindFields(env, arm.binders, fields), map[], s.trace), start)
  {
    var values, t := lowered.binders, g.blocks[lowered.target].term.target;
    var padded := Padded(fields, |values|);
    var outer := L.GraphReads(arm.body) - Names(arm.binders);
    RestrictMatches(env, start, vars, outer, scope);
    LaterMatches(env, start, s.store, outer, scope, n);
    assert arm.binders[..|arm.binders|] == arm.binders;
    ArmMatches(env, s.store, L.GraphReads(arm.body), scope, n, arm.binders, values, high, padded, |values|);
    var after := State(BindFields(s.store, values, fields), s.trace);
    NoArguments(g.blocks[t].params, after.store);
    assert RunBlock(w, g.blocks, lowered.target, after) == RunBlock(w, g.blocks, t, after);
    var o := L.Run(w, arm.body, BindFields(env, arm.binders, fields), map[], s.trace);
    DeliversRun(w, g, t, arm.body, exit, ArmScope(scope, arm.binders, values, |values|),
      BindFields(env, arm.binders, fields), after);
    assert SameBelow(start, after.store, n) by {
      forall v: ValueId | v < n
        ensures Load(start, v) == Load(after.store, v)
      {
        assert Load(start, v) == Load(s.store, v);
      }
    }
    HandSame(w, g, exit, o, start, after.store, n);
  }

  /** All a match goes on to needs what its exit does. */
  lemma MatchNests(g: Built, b: BlockId, arms: seq<L.Arm>, scrutinee: Cfg.Expr, lowered: seq<Cfg.MatchArm>,
      td: BlockId, exit: Exit, scope: Scope, n: ValueId, low: ValueId)
    requires Placed(g, b, exit, scope, n) && Level(g.blocks[b].instrs)
      && g.blocks[b].term == Cfg.Terminator.Match(scrutinee, lowered, td)
    requires ArmsBuilt(g, arms, lowered, exit, scope, n, low) && td < |g.blocks|
      && Needed(g.blocks, td) == Owed(g, exit)
    ensures Needed(g.blocks, b) == Owed(g, exit)
  {
    var successors := g.blocks[b].term.Successors();
    forall s | s in successors ensures s < |g.blocks| && Needed(g.blocks, s) == Owed(g, exit) {
      var i: nat :| i < |successors| && successors[i] == s;
      if i < |lowered| {
        assert ArmBuilt(g, arms[i], lowered[i], exit, scope, n, low);
        DeliversNested(g, g.blocks[s].term.target, arms[i].body, exit,
          ArmScope(scope, arms[i].binders, lowered[i].binders, |arms[i].binders|));
        JumpNests(g, s, g.blocks[s].term.target, exit);
      }
    }
    NeededAlike(g.blocks, b, Owed(g, exit));
    LevelBefore(g.blocks[b].instrs, Owed(g, exit));
  }

  lemma MatchDelivers(g: Built, b: BlockId, code: seq<Cfg.Instr>, lowered: Cfg.Expr, e: Expr, arms: seq<L.Arm>,
      loweredArms: seq<Cfg.MatchArm>, default: Option<L.Graph>, td: BlockId, exit: Exit, scope: Scope, n: ValueId,
      low: ValueId, high: ValueId)
    requires Placed(g, b, exit, scope, n) && n <= low && Numbered(code, lowered, low, high)
      && Computes(code, lowered, e, scope)
    requires g.blocks[b].instrs == code && g.blocks[b].term == Cfg.Terminator.Match(lowered, loweredArms, td)
    requires ArmsBuilt(g, arms, loweredArms, exit, scope, n, low) && DefaultBuilt(g, default, td, exit, scope)
    ensures DeliversIn(g, b, L.Graph.Match(e, arms, default), exit, scope)
  {
    var graph := L.Graph.Match(e, arms, default);
    TemporariesLevel(code, low, high);
    if default.Some? { DeliversNested(g, td, default.value, exit, scope); }
    MatchNests(g, b, arms, lowered, loweredArms, td, exit, scope, n, low);
    var vars := L.GraphReads(graph);
    forall w: World, env: Env, s: State | Matches(env, s.store, vars, scope.Restrict(vars))
      ensures RunBlock(w, g.blocks, b, s) == Hand(w, g, exit, L.Run(w, graph, env, map[], s.trace), s.store)
    {
      MatchHands(w, g, b, code, lowered, e, arms, loweredArms, default, td, exit, scope, n, low, high, env, s);
    }
  }

  /** The first arm for a constructor is lowered to the first arm for it. */
  lemma ArmsSelectAlike(g: Built, arms: seq<L.Arm>, lowered: seq<Cfg.MatchArm>, exit: Exit, scope: Scope, n: ValueId,
      low: ValueId, tag: nat)
    requires g.Sound() && g.Fits(exit) && ArmsBuilt(g, arms, lowered, exit, scope, n, low)
    ensures CfgRun.Selected(lowered, tag) == L.Matching(arms, tag)
  {
    forall k | 0 <= k < |arms| ensures lowered[k].tag == arms[k].tag {
      assert ArmBuilt(g, arms[k], lowered[k], exit, scope, n, low);
    }
    SelectedIsMatching(arms, lowered, tag, 0);
  }

  /** A block that matches goes to the arm it selects, or to its default. */
  lemma MatchSteps(w: World, g: Built, b: BlockId, scrutinee: Cfg.Expr, arms: seq<Cfg.MatchArm>, td: BlockId, s: State)
    requires g.Sound() && b < |g.blocks| && g.blocks[b].term == Cfg.Terminator.Match(scrutinee, arms, td)
    ensures td < |g.blocks| && forall k :: 0 <= k < |arms| ==> arms[k].target < |g.blocks|
    ensures var after := RunInstrs(w, g.blocks[b].instrs, s);
      var v := ValueOf(w, scrutinee, after.store);
      RunBlock(w, g.blocks, b, s) ==
        if v.Ctor? && CfgRun.Selected(arms, v.tag).Some? then
          var arm := arms[CfgRun.Selected(arms, v.tag).value];
          RunBlock(w, g.blocks, arm.target, after.(store := BindFields(after.store, arm.binders, v.fields)))
        else RunBlock(w, g.blocks, td, after)
  {
    assert Back(g.blocks[b], b);
    var successors := g.blocks[b].term.Successors();
    assert successors[|arms|] == td && td in successors;
    forall k | 0 <= k < |arms| ensures arms[k].target < |g.blocks| {
      assert successors[k] == arms[k].target && successors[k] in successors;
    }
  }

  lemma MatchHands(w: World, g: Built, b: BlockId, code: seq<Cfg.Instr>, lowered: Cfg.Expr, e: Expr, arms: seq<L.Arm>,
      loweredArms: seq<Cfg.MatchArm>, default: Option<L.Graph>, td: BlockId, exit: Exit, scope: Scope, n: ValueId,
      low: ValueId, high: ValueId, env: Env, s: State)
    requires Placed(g, b, exit, scope, n) && n <= low && Numbered(code, lowered, low, high)
      && Computes(code, lowered, e, scope)
    requires g.blocks[b].instrs == code && g.blocks[b].term == Cfg.Terminator.Match(lowered, loweredArms, td)
    requires ArmsBuilt(g, arms, loweredArms, exit, scope, n, low) && DefaultBuilt(g, default, td, exit, scope)
    requires var vars := L.GraphReads(L.Graph.Match(e, arms, default));
      Matches(env, s.store, vars, scope.Restrict(vars))
    ensures RunBlock(w, g.blocks, b, s)
      == Hand(w, g, exit, L.Run(w, L.Graph.Match(e, arms, default), env, map[], s.trace), s.store)
  {
    var vars := L.GraphReads(L.Graph.Match(e, arms, default));
    TemporariesKeep(w, code, low, high, s);
    PartComputes(w, code, lowered, e, scope, env, s, vars);
    MatchSteps(w, g, b, lowered, loweredArms, td, s);
    var after := RunInstrs(w, code, s);
    var v := Eval(w, e, env);
    if v.Ctor? { ArmsSelectAlike(g, arms, loweredArms, exit, scope, n, low, v.tag); }
    if v.Ctor? && L.Matching(arms, v.tag).Some? {
      var i := L.Matching(arms, v.tag).value;
      assert ArmBuilt(g, arms[i], loweredArms[i], exit, scope, n, low);
      ArmReadsWithin(arms, |arms|, i);
      ArmRuns(w, g, arms[i], loweredArms[i], exit, scope, n, low, env, s.store, after, v.fields, vars);
    } else {
      DefaultRuns(w, g, default, td, exit, scope, n, env, s.store, after, vars);
    }
  }

  lemma DefaultRuns(w: World, g: Built, default: Option<L.Graph>, t: BlockId, exit: Exit, scope: Scope, n: ValueId,
      env: Env, start: Store, after: State, vars: set<VarId>)
    requires Placed(g, t, exit, scope, n) && DefaultBuilt(g, default, t, exit, scope)
    requires Matches(env, start, vars, scope.Restrict(vars)) && L.AfterReads(default) <= vars
      && SameBelow(start, after.store, n)
    ensures var o := if default.Some? then L.Run(w, default.value, env, map[], after.trace)
      else Outcome(Cfg.Unit, after.trace);
      RunBlock(w, g.blocks, t, after) == Hand(w, g, exit, o, start)
  {
    match default
    case Some(other) => GoesOnUnbound(w, g, t, other, exit, scope, env, start, after, vars, n);
    case None => HandSame(w, g, exit, Outcome(Cfg.Unit, after.trace), start, after.store, n);
  }
}
