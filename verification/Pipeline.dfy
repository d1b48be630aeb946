/** The two lowerings one after the other: from a handle expression to block-form code. */
module Pipeline {
  import Cfg
  import opened Core
  import opened ClauseAnalysis
  import opened CfgMeaning
  import opened Lowering
  import C = CfgLower
  import E = ErasureMeaning
  import Er = Erasure
  import L = Linear
  import Arena = LinearArena
  import Shape = ErasureShape
  import Exhaustive
  import HandlerStates

  /** No clause is left to a shared continuation, whose dispatch the block lowering here leaves out. */
  predicate SplicedOnly(h: Handler) { forall c :: c in h.clauses ==> ErasePolicy(c) != Defunctionalise }

  /** What a function whose body is the handle expression gives. */
  ghost function HandleOf(w: World, h: Handler, params: seq<VarId>, body: Stmt, args: seq<Value>, t: Trace): Outcome
    requires |args| == |params|
  {
    Handled(w, h, body, BindAll(map[], params, args, |params|), t)
  }

  ghost predicate RunsAs(g: Built, f: Cfg.Function, h: Handler, params: seq<VarId>, body: Stmt)
    requires g.Sound() && f.entry < |g.blocks| && |f.params| == |params|
  {
    forall w: World, args: seq<Value>, t: Trace {:trigger C.FromEntry(w, g, f, args, t)} ::
      |args| == |params| && Matched(HandleOf(w, h, params, body, args, t).trace) ==>
        C.FromEntry(w, g, f, args, t) == HandleOf(w, h, params, body, args, t)
  }

  /** A handle expression whose matches all pass the type checker's rule is erased to what it means, in every
      world and environment of its signature; nothing is asked of the run. */
  lemma CheckedHandleIsSound(sig: Exhaustive.Signature, w: World, h: Handler, limit: VarId, body: Stmt, st: Er.State,
      env: Env, open: L.Open, t: Trace)
    requires E.WellFormed(h) && E.Distinct(h, body, limit) && E.Discharged(h, body) && ResumesOnly(body, Cfg.None)
    requires Exhaustive.Passes(sig, h, body) && Exhaustive.Keeps(sig, w)
    requires Exhaustive.Typed(sig, env, Free(body) + HomeReads(h)) && st.nextVar >= limit && Matched(t)
    ensures var chosen := L.Run(w,
        Er.Lower(h, E.ChosenPolicies(h), body, Cfg.None, Er.Answer.HandlerReturn, st).0, env, open, t);
      && chosen == Handled(w, h, body, env, t)
      && chosen ==
        L.Run(w, Er.Lower(h, E.AlwaysInline(h), body, Cfg.None, Er.Answer.HandlerReturn, st).0, env, open, t)
  {
    Exhaustive.HandleIsMatched(sig, w, h, body, env, t);
    E.ChoiceIsSound(w, h, limit, body, st, env, open, t);
  }

  /** The erased graph has no dispatch in it and reads nothing but the parameters. */
  lemma GraphIsReady(h: Handler, params: seq<VarId>, body: Stmt, graph: L.Graph, st: Er.State)
    requires E.WellFormed(h) && E.Discharged(h, body) && ResumesOnly(body, Cfg.None) && SplicedOnly(h)
    requires Free(body) + HomeReads(h) <= Names(params)
    requires graph == Er.Lower(h, E.ChosenPolicies(h), body, Cfg.None, Er.Answer.HandlerReturn, st).0
    ensures L.Dispatchless(graph) && L.GraphReads(graph) <= Names(params)
  {
    E.ChosenPoliciesSuit(h);
    forall p | p in E.ChosenPolicies(h) ensures p != Defunctionalise {
      var i :| 0 <= i < |h.clauses| && p == ErasePolicy(h.clauses[i]);
      assert h.clauses[i] in h.clauses;
    }
    Shape.LowerShaped(h, E.ChosenPolicies(h), body, Cfg.None, Er.Answer.HandlerReturn, st);
  }

  /** The function runs as the handle does and closes every scope it opens. */
  ghost predicate Compiles(f: Cfg.Function, blocks: seq<Cfg.Block>, h: Handler, params: seq<VarId>, body: Stmt) {
    exists g: Built :: CompiledAs(g, f, blocks, h, params, body)
  }

  ghost predicate CompiledAs(g: Built, f: Cfg.Function, blocks: seq<Cfg.Block>, h: Handler, params: seq<VarId>,
      body: Stmt) {
    && g.Sound() && g.blocks == blocks && f.entry < |blocks| && |f.params| == |params|
    && RunsAs(g, f, h, params, body) && C.Closed(g, f)
  }

  /** Erases the handle and lowers what is left to blocks: the function returns, for all arguments and in
      every world, what the handle expression means. Expansion is abandoned only when it has pushed more
      statements than the budget allows. */
  method HandleToBlocks(h: Handler, params: seq<VarId>, body: Stmt, freshVarBase: VarId)
    returns (done: bool, pushed: nat, f: Cfg.Function, blocks: seq<Cfg.Block>)
    requires E.WellFormed(h) && E.Distinct(h, body, freshVarBase) && E.Discharged(h, body)
      && ResumesOnly(body, Cfg.None)
    requires SplicedOnly(h) && Free(body) + HomeReads(h) <= Names(params)
    ensures !done ==> pushed > HANDLER_INLINE_STMT_BUDGET
    ensures done ==> Compiles(f, blocks, h, params, body)
  {
    var state := new LoweringState(freshVarBase);
    ghost var st := state.Counters();
    var id := state.LowerHandled(h, body);
    pushed := |state.stmts|;
    if state.inlineBudgetExhausted { return false, pushed, Cfg.Function([], 0), []; }
    ghost var graph := Arena.Decode(state.stmts, id);
    GraphIsReady(h, params, body, graph, st);
    var functions;
    ghost var g;
    functions, blocks, g := C.LowerProgram(state.stmts, [C.Source(params, id)]);
    f, done := functions[0], true;
    forall w: World, args: seq<Value>, t: Trace | |args| == |params|
      && Matched(HandleOf(w, h, params, body, args, t).trace)
      ensures C.FromEntry(w, g, f, args, t) == HandleOf(w, h, params, body, args, t)
    {
      assert C.FromEntry(w, g, f, args, t) == L.Run(w, graph, BindAll(map[], params, args, |params|), map[], t);
    }
    assert CompiledAs(g, f, blocks, h, params, body);
  }

  /** Lowers a program to blocks and looks for its active handlers, the way the backend does before it emits a
      function: in every function, for every block that can be reached, the search says which handlers are
      open there on every way from the entry. */
  method LowerAndFind(nodes: Arena.Arena, sources: seq<C.Source>, tails: set<Cfg.BlockId>)
    returns (program: Cfg.Program, states: seq<HandlerStates.Known>)
    requires Arena.Ordered(nodes)
      && forall f :: f in sources ==> f.body < |nodes| && L.Dispatchless(Arena.Decode(nodes, f.body))
    ensures |program.functions| == |sources| == |states|
    ensures forall i: nat {:trigger states[i]} :: i < |states| ==>
      HandlerStates.FoundOpen(program, program.functions[i].entry, tails, states[i])
  {
    var functions, blocks;
    ghost var g;
    functions, blocks, g := C.LowerProgram(nodes, sources);
    program := Cfg.Program(functions, blocks);
    forall f | f in functions ensures HandlerStates.Nested(program, f) {
      var i: nat :| i < |functions| && functions[i] == f;
    }
    states := HandlerStates.StatesOfAll(program, tails);
  }
}
