/** What block-form code lowered from a linear statement owes: handed the statement's variables, it
    leaves the statement's value and trace with its exit. */
module CfgMeaning {
  import Cfg
  import opened Core
  import opened CfgRun
  import opened Scopes
  import L = Linear

  type ValueId = Cfg.ValueId
  type BlockId = Cfg.BlockId

  // ---------------------------------------------------------------- scopes

  /** A binding chain, innermost first. */
  datatype Scope = Empty | Binding(variable: VarId, value: ValueId, outer: Scope) {
    function Get(v: VarId): Option<ValueId> {
      match this
      case Empty => Cfg.None
      case Binding(variable, value, outer) => if variable == v then Cfg.Some(value) else outer.Get(v)
    }

    function Bind(v: VarId, value: ValueId): Scope { Binding(v, value, this) }

    /** The part of the chain code that reads `vars` can observe. */
    function Restrict(vars: set<VarId>): View {
      map v | v in vars && Get(v).Some? :: Get(v).value
    }

    /** Every value in the chain is numbered below `n`. */
    predicate Below(n: ValueId) {
      match this
      case Empty => true
      case Binding(_, value, outer) => value < n && outer.Below(n)
    }

    lemma GetBelow(n: ValueId, v: VarId)
      requires Below(n) && Get(v).Some?
      ensures Get(v).value < n
    {
      if variable != v { outer.GetBelow(n, v); }
    }

    lemma BelowMore(n: ValueId, m: ValueId)
      requires Below(n) && n <= m
      ensures Below(m)
    {
      if !Empty? { outer.BelowMore(n, m); }
    }
  }

  type View = map<VarId, ValueId>

  /** The store holds what the environment does, for each of the variables. */
  ghost predicate Matches(env: Env, store: Store, vars: set<VarId>, view: View) {
    forall v :: v in vars ==> v in view && Load(store, view[v]) == Lookup(env, v)
  }

  /** Only what is read matters. */
  lemma RestrictMatches(env: Env, store: Store, vars: set<VarId>, some: set<VarId>, scope: Scope)
    requires Matches(env, store, vars, scope.Restrict(vars)) && some <= vars
    ensures Matches(env, store, some, scope.Restrict(some))
  {}

  lemma BindMatches(env: Env, store: Store, later: Store, vars: set<VarId>, scope: Scope, n: ValueId, x: VarId,
      r: ValueId, v: Value)
    requires Matches(env, store, vars - {x}, scope.Restrict(vars - {x})) && scope.Below(n)
    requires SameBelow(store, later, n) && Load(later, r) == v
    ensures Matches(env[x := v], later, vars, scope.Bind(x, r).Restrict(vars))
  {
    forall y | y in vars
      ensures y in scope.Bind(x, r).Restrict(vars)
      ensures Load(later, scope.Bind(x, r).Restrict(vars)[y]) == Lookup(env[x := v], y)
    {
      if y != x {
        assert y in vars - {x};
        scope.GetBelow(n, y);
      }
    }
  }

  lemma LaterMatches(env: Env, store: Store, later: Store, vars: set<VarId>, scope: Scope, n: ValueId)
    requires Matches(env, store, vars, scope.Restrict(vars)) && scope.Below(n) && SameBelow(store, later, n)
    ensures Matches(env, later, vars, scope.Restrict(vars))
  {
    forall y | y in vars ensures Load(later, scope.Restrict(vars)[y]) == Lookup(env, y) { scope.GetBelow(n, y); }
  }

  // ---------------------------------------------------------------- expressions

  /** Temporaries numbered in `[low, high)`, each bound once. */
  predicate Temporaries(code: seq<Cfg.Instr>, low: ValueId, high: ValueId) {
    && InstrsBelow(code, high)
    && forall k: nat {:trigger code[k].Let?} :: k < |code| ==> code[k].Let? && code[k].result >= low
  }

  lemma {:induction false} TemporariesKeep(w: World, code: seq<Cfg.Instr>, low: ValueId, high: ValueId, s: State)
    requires Temporaries(code, low, high)
    ensures RunInstrs(w, code, s).trace == s.trace
    ensures SameBelow(s.store, RunInstrs(w, code, s).store, low)
  {
    if code != [] {
      var rest, last := code[..|code| - 1], code[|code| - 1];
      forall k: nat | k < |rest| ensures InstrBelow(rest[k], high) && rest[k].Let? && rest[k].result >= low {
        assert InstrBelow(code[k], high) && code[k].Let?;
      }
      TemporariesKeep(w, rest, low, high, s);
      assert code[|code| - 1].Let?;
      var before, after := RunInstrs(w, rest, s), RunInstrs(w, code, s);
      forall v: ValueId | v < low ensures Load(s.store, v) == Load(after.store, v) {
        assert Load(s.store, v) == Load(before.store, v);
      }
    }
  }

  lemma TemporariesJoin(a: seq<Cfg.Instr>, b: seq<Cfg.Instr>, low: ValueId, mid: ValueId, high: ValueId)
    requires Temporaries(a, low, mid) && Temporaries(b, mid, high) && low <= mid <= high
    ensures Temporaries(a + b, low, high)
  {
    forall k: nat | k < |a + b| ensures InstrBelow((a + b)[k], high) && (a + b)[k].Let? && (a + b)[k].result >= low {
      if k < |a| {
        assert InstrBelow(a[k], mid) && a[k].Let?;
        InstrHigher(a[k], mid, high);
      } else {
        assert InstrBelow(b[k - |a|], high) && b[k - |a|].Let?;
      }
    }
  }

  lemma {:induction false} ExprHigher(e: Cfg.Expr, n: ValueId, m: ValueId)
    requires ExprBelow(e, n) && n <= m
    ensures ExprBelow(e, m)
    decreases e
  {
    match e
    case Unary(_, operand) => ExprHigher(operand, n, m);
    case Binary(_, lhs, rhs) => ExprHigher(lhs, n, m); ExprHigher(rhs, n, m);
    case Prim(_, args) => ExprsHigher(args, n, m);
    case PureCall(_, args) => ExprsHigher(args, n, m);
    case _ =>
  }

  lemma {:induction false} ExprsHigher(es: seq<Cfg.Expr>, n: ValueId, m: ValueId)
    requires ExprsBelow(es, n) && n <= m
    ensures ExprsBelow(es, m)
    decreases es
  {
    forall i: nat | i < |es| ensures ExprBelow(es[i], m) { ExprHigher(es[i], n, m); }
  }

  lemma InstrHigher(i: Cfg.Instr, n: ValueId, m: ValueId)
    requires InstrBelow(i, n) && n <= m
    ensures InstrBelow(i, m)
  {
    match i
    case Let(_, value) => ExprHigher(value, n, m);
    case Eval(_, value) => ExprHigher(value, n, m);
    case _ =>
  }

  /** After its temporaries, the lowered expression reads what the source expression does. */
  ghost predicate Computes(code: seq<Cfg.Instr>, lowered: Cfg.Expr, e: Expr, scope: Scope) {
    forall w: World, env: Env,
      s: State {:trigger RunInstrs(w, code, s), Matches(env, s.store, Reads(e), scope.Restrict(Reads(e)))} ::
      Matches(env, s.store, Reads(e), scope.Restrict(Reads(e))) ==>
        ValueOf(w, lowered, RunInstrs(w, code, s).store) == Eval(w, e, env)
  }

  ghost predicate ComputesAll(code: seq<Cfg.Instr>, lowered: seq<Cfg.Expr>, es: seq<Expr>, scope: Scope) {
    forall w: World, env: Env,
      s: State {:trigger RunInstrs(w, code, s),
        Matches(env, s.store, ReadsOfAll(es), scope.Restrict(ReadsOfAll(es)))} ::
      Matches(env, s.store, ReadsOfAll(es), scope.Restrict(ReadsOfAll(es))) ==>
        ValuesOf(w, lowered, RunInstrs(w, code, s).store) == EvalAll(w, es, env)
  }

  /** The lowered form is well numbered. */
  predicate Numbered(code: seq<Cfg.Instr>, lowered: Cfg.Expr, low: ValueId, high: ValueId) {
    low <= high && Temporaries(code, low, high) && ExprBelow(lowered, high)
  }

  // ---------------------------------------------------------------- statements

  /** Where a statement's value goes: out of the function, into a block's parameter, or nowhere. */
  datatype Exit = Return | Yield(target: BlockId) | Discard(target: BlockId)

  /** The blocks built so far, each with the number of values there were when it was finished. */
  datatype Built = Built(blocks: seq<Cfg.Block>, ceilings: seq<ValueId>) {
    ghost predicate Sound() { Descending(blocks) && Ceilinged(blocks, ceilings) }

    ghost predicate Fits(exit: Exit) {
      match exit
      case Return => true
      case Yield(c) => c < |blocks| && |blocks[c].params| == 1
      case Discard(c) => c < |blocks| && blocks[c].params == []
    }

    /** The exit knows only values numbered below `n`. */
    ghost predicate Predates(exit: Exit, n: ValueId)
      requires Sound() && Fits(exit)
    {
      exit.Return? || ceilings[exit.target] <= n
    }

    ghost predicate Extends(before: Built) { before.blocks <= blocks && before.ceilings <= ceilings }
  }

  /** The exit takes an outcome over, in the store the statement started with. */
  ghost function Hand(w: World, g: Built, exit: Exit, o: Outcome, store: Store): Outcome
    requires g.Sound() && g.Fits(exit)
  {
    match exit
    case Return => o
    case Yield(c) => RunBlock(w, g.blocks, c, State(store[g.blocks[c].params[0] := o.value], o.trace))
    case Discard(c) => RunBlock(w, g.blocks, c, State(store, o.trace))
  }

  /** The scopes that have to be open where control is handed over. */
  ghost function Owed(g: Built, exit: Exit): Option<Stack>
    requires g.Sound() && g.Fits(exit)
  {
    if exit.Return? then Cfg.Some([]) else Needed(g.blocks, exit.target)
  }

  /** Run from block `t`, the statement leaves its outcome with the exit, and the same scopes open.
      Folded away: `Deliver` is its definition. */
  ghost predicate Delivers(g: Built, t: BlockId, graph: L.Graph, exit: Exit, view: View)
    requires g.Sound() && g.Fits(exit) && t < |g.blocks|
  {
    forall k: nat {:trigger Cfg.Folded((g, t, graph, exit, view), k)} ::
      Cfg.Folded((g, t, graph, exit, view), k) ==> HandsOver(g, t, graph, exit, view)
  }

  lemma Deliver(g: Built, t: BlockId, graph: L.Graph, exit: Exit, view: View)
    requires g.Sound() && g.Fits(exit) && t < |g.blocks| && Delivers(g, t, graph, exit, view)
    ensures HandsOver(g, t, graph, exit, view)
  {
    assert Cfg.Folded((g, t, graph, exit, view), 0);
  }

  ghost predicate HandsOver(g: Built, t: BlockId, graph: L.Graph, exit: Exit, view: View)
    requires g.Sound() && g.Fits(exit) && t < |g.blocks|
  {
    Needed(g.blocks, t) == Owed(g, exit) &&
    forall w: World, env: Env,
      s: State {:trigger RunBlock(w, g.blocks, t, s), Matches(env, s.store, L.GraphReads(graph), view)} ::
      Matches(env, s.store, L.GraphReads(graph), view) ==>
        RunBlock(w, g.blocks, t, s) == Hand(w, g, exit, L.Run(w, graph, env, map[], s.trace), s.store)
  }

  lemma HandSame(w: World, g: Built, exit: Exit, o: Outcome, a: Store, b: Store, n: ValueId)
    requires g.Sound() && g.Fits(exit) && g.Predates(exit, n) && SameBelow(a, b, n)
    ensures Hand(w, g, exit, o, a) == Hand(w, g, exit, o, b)
  {
    match exit
    case Return =>
    case Yield(c) =>
      var p := g.blocks[c].params[0];
      SameUpdate(a, b, n, p, o.value);
      RunSame(w, g.blocks, g.ceilings, c, State(a[p := o.value], o.trace), State(b[p := o.value], o.trace));
    case Discard(c) => RunSame(w, g.blocks, g.ceilings, c, State(a, o.trace), State(b, o.trace));
  }

  lemma HandKept(w: World, before: Built, g: Built, exit: Exit, o: Outcome, store: Store)
    requires before.Sound() && g.Sound() && g.Extends(before) && before.Fits(exit)
    ensures g.Fits(exit) && Hand(w, g, exit, o, store) == Hand(w, before, exit, o, store)
  {
    if !exit.Return? {
      var c := exit.target;
      assert g.blocks[c] == before.blocks[c] && g.ceilings[c] == before.ceilings[c];
      assert before.blocks[..c + 1] == g.blocks[..c + 1];
      var s := State(if exit.Yield? then store[g.blocks[c].params[0] := o.value] else store, o.trace);
      RunKept(w, before.blocks, g.blocks, c, s);
    }
  }

  lemma FitsKept(before: Built, g: Built, exit: Exit)
    requires before.Sound() && g.Sound() && g.Extends(before) && before.Fits(exit)
    ensures g.Fits(exit)
  {
    if !exit.Return? {
      assert g.blocks[exit.target] == before.blocks[exit.target]
        && g.ceilings[exit.target] == before.ceilings[exit.target];
    }
  }

  lemma OwedKept(before: Built, g: Built, exit: Exit)
    requires before.Sound() && g.Sound() && g.Extends(before) && before.Fits(exit) && g.Fits(exit)
    ensures Owed(g, exit) == Owed(before, exit)
  {
    if !exit.Return? {
      assert before.blocks[..exit.target + 1] == g.blocks[..exit.target + 1];
      NeededKept(before.blocks, g.blocks, exit.target);
    }
  }

  /** What a block delivers, it goes on delivering. */
  lemma DeliversKept(before: Built, g: Built, t: BlockId, graph: L.Graph, exit: Exit, view: View)
    requires before.Sound() && g.Sound() && g.Extends(before) && before.Fits(exit) && t < |before.blocks|
    requires Delivers(before, t, graph, exit, view)
    ensures g.Fits(exit) && t < |g.blocks| && Delivers(g, t, graph, exit, view)
  {
    FitsKept(before, g, exit);
    Deliver(before, t, graph, exit, view);
    assert before.blocks[..t + 1] == g.blocks[..t + 1];
    NeededKept(before.blocks, g.blocks, t);
    OwedKept(before, g, exit);
    forall w: World, env: Env, s: State | Matches(env, s.store, L.GraphReads(graph), view)
      ensures RunBlock(w, g.blocks, t, s) == Hand(w, g, exit, L.Run(w, graph, env, map[], s.trace), s.store)
    {
      RunKept(w, before.blocks, g.blocks, t, s);
      HandKept(w, before, g, exit, L.Run(w, graph, env, map[], s.trace), s.store);
    }
  }
}
