/** Running a whole program: calls run the function they name, in a frame of its own. */
module Calls {
  import opened Cfg
  import opened CfgRun

  /** A fresh frame holds the arguments, up to the shorter of parameters and arguments. */
  function Frame(f: Function, args: seq<Val>): Store { Pass(f.params, args, map[]) }

  datatype CallSite = CallSite(callee: FuncId, args: seq<Expr>, target: BlockId)

  function CallIn(term: Terminator): Option<CallSite> {
    match term
    case Call(callee, args, _, target) => Some(CallSite(callee, args, target))
    case GotoCall(target, callee, args) => Some(CallSite(callee, args, target))
    case _ => None
  }

  /** Where the callee's result goes: under the call's name for it, or in the target's parameter. */
  function Receive(p: Program, term: Terminator, v: Val, store: Store): Store {
    match term
    case Call(_, _, result, _) => store[result := v]
    case GotoCall(target, _, _) => if target < |p.blocks| then Pass(p.blocks[target].params, [v], store) else store
    case _ => store
  }

  predicate Calling(p: Program, b: BlockId) { b < |p.blocks| && CallIn(p.blocks[b].term).Some? }

  function SiteAt(p: Program, b: BlockId): CallSite {
    if Calling(p, b) then CallIn(p.blocks[b].term).value else CallSite(0, [], 0)
  }

  /** The state after a block's instructions. */
  function Ran(p: Program, w: World, b: BlockId, s: State): State {
    if b < |p.blocks| then RunInstrs(w, p.blocks[b].instrs, s) else s
  }

  function ArgsAt(p: Program, w: World, b: BlockId, s: State): seq<Val> {
    ValuesOf(w, SiteAt(p, b).args, Ran(p, w, b, s).store)
  }

  /** The state a call comes back in. */
  function Received(p: Program, w: World, b: BlockId, s: State, o: Outcome): State {
    State(if b < |p.blocks| then Receive(p, p.blocks[b].term, o.value, Ran(p, w, b, s).store) else s.store, o.trace)
  }

  /** Where a block that calls nothing goes on. */
  function Going(p: Program, w: World, b: BlockId, s: State): Next
    requires b < |p.blocks|
  {
    Follow(w, p.blocks, p.blocks[b].term, Ran(p, w, b, s))
  }

  predicate Dead(p: Program, b: BlockId) { b >= |p.blocks| || p.blocks[b].term.Unreachable? }

  // ---------------------------------------------------------------- calls inside expressions

  /** Every call in the expression returns. */
  predicate ExprAnswered(w: World, e: Expr, store: Store)
    decreases e
  {
    match e
    case Value(_) => true
    case Literal(_) => true
    case Unary(_, operand) => ExprAnswered(w, operand, store)
    case Binary(_, lhs, rhs) => ExprAnswered(w, lhs, store) && ExprAnswered(w, rhs, store)
    case Prim(_, args) => AllAnswered(w, args, store)
    case PureCall(callee, args) => AllAnswered(w, args, store) && (callee, ValuesOf(w, args, store)) in w.pure
  }

  predicate AllAnswered(w: World, es: seq<Expr>, store: Store)
    decreases es
  {
    forall i :: 0 <= i < |es| ==> ExprAnswered(w, es[i], store)
  }

  predicate InstrAnswered(w: World, i: Instr, store: Store) {
    match i
    case Let(_, value) => ExprAnswered(w, value, store)
    case Eval(_, value) => ExprAnswered(w, value, store)
    case _ => true
  }

  predicate InstrsAnswered(w: World, instrs: seq<Instr>, s: State) {
    if instrs == [] then true
    else
      var before := instrs[..|instrs| - 1];
      InstrsAnswered(w, before, s) && InstrAnswered(w, instrs[|instrs| - 1], RunInstrs(w, before, s).store)
  }

  /** Every call in the block's expressions returns. Folded away: `AnsweredIn` is its definition. */
  ghost predicate BlockAnswered(w: World, block: Block, s: State) {
    forall k: nat {:trigger Folded((w, block, s), k)} :: Folded((w, block, s), k) ==> AnsweredIn(w, block, s)
  }

  predicate AnsweredIn(w: World, block: Block, s: State) {
    InstrsAnswered(w, block.instrs, s) && AllAnswered(w, block.term.Operands(), RunInstrs(w, block.instrs, s).store)
  }

  lemma BlockAnsweredIs(w: World, block: Block, s: State)
    ensures BlockAnswered(w, block, s) <==> AnsweredIn(w, block, s)
  {
    if BlockAnswered(w, block, s) { assert Folded((w, block, s), 0); }
  }

  /** Control gets no further than this block. */
  ghost predicate Stuck(p: Program, w: World, b: BlockId, s: State) {
    Dead(p, b) || !BlockAnswered(w, p.blocks[b], s)
  }

  // ---------------------------------------------------------------- runs

  /** What is still to run, in at most `n` steps; nothing if that is not enough, if control leaves
      the program's blocks or functions, if it reaches what was declared unreachable, or if a call
      inside an expression does not return. */
  ghost function RunFrom(p: Program, w: World, n: nat, b: BlockId, s: State): Option<Outcome>
    decreases n, 0
  {
    if n == 0 || Stuck(p, w, b, s) then None
    else if Calling(p, b) then
      var o := Activate(p, w, n - 1, SiteAt(p, b).callee, ArgsAt(p, w, b, s), Ran(p, w, b, s).trace);
      if o.None? then None else RunFrom(p, w, n - 1, SiteAt(p, b).target, Received(p, w, b, s, o.value))
    else
      var e := Going(p, w, b, s);
      if e.Leave? then Some(e.outcome) else RunFrom(p, w, n - 1, e.target, e.state)
  }

  ghost function Activate(p: Program, w: World, n: nat, f: FuncId, args: seq<Val>, t: Trace): Option<Outcome>
    decreases n, 1
  {
    if f < |p.functions| then RunFrom(p, w, n, p.functions[f].entry, State(Frame(p.functions[f], args), t)) else None
  }

  // ---------------------------------------------------------------- runs that end

  /** In at most `n` steps what runs from `b` ends with `o`. The definition is folded away: the lemmas
      below say all there is to know of it. */
  ghost predicate Ends(p: Program, w: World, n: nat, b: BlockId, s: State, o: Outcome) {
    !EndsOtherwise(p, w, n, b, s, o)
  }

  /** It ends with something else, or does not end in time. */
  ghost predicate EndsOtherwise(p: Program, w: World, n: nat, b: BlockId, s: State, o: Outcome) {
    exists k: nat {:trigger Folded((p, w, n, b, s, o), k)} ::
      Folded((p, w, n, b, s, o), k) && RunFrom(p, w, n, b, s) != Some(o)
  }

  lemma EndsIs(p: Program, w: World, n: nat, b: BlockId, s: State, o: Outcome)
    ensures Ends(p, w, n, b, s, o) <==> RunFrom(p, w, n, b, s) == Some(o)
  {
    if Ends(p, w, n, b, s, o) { assert Folded((p, w, n, b, s, o), 0); }
  }

  /** In at most `n` steps the call returns `o`. */
  ghost predicate Gives(p: Program, w: World, n: nat, f: FuncId, args: seq<Val>, t: Trace, o: Outcome) {
    f < |p.functions| && Ends(p, w, n, p.functions[f].entry, State(Frame(p.functions[f], args), t), o)
  }

  lemma GivesIs(p: Program, w: World, n: nat, f: FuncId, args: seq<Val>, t: Trace, o: Outcome)
    ensures Gives(p, w, n, f, args, t, o) <==> Activate(p, w, n, f, args, t) == Some(o)
  {
    if f < |p.functions| { EndsIs(p, w, n, p.functions[f].entry, State(Frame(p.functions[f], args), t), o); }
  }

  /** Called so, the function returns this. */
  ghost predicate Returns(p: Program, w: World, f: FuncId, args: seq<Val>, t: Trace, o: Outcome) {
    exists n: nat :: Gives(p, w, n, f, args, t, o)
  }

  lemma GetsOn(p: Program, w: World, n: nat, b: BlockId, s: State, o: Outcome)
    requires Ends(p, w, n, b, s, o)
    ensures n > 0 && !Stuck(p, w, b, s)
  {
    EndsIs(p, w, n, b, s, o);
  }

  /** A block that calls nothing ends as what it goes on to does. */
  lemma StepEnds(p: Program, w: World, n: nat, b: BlockId, s: State, o: Outcome)
    requires n > 0 && !Stuck(p, w, b, s) && !Calling(p, b)
    ensures var e := Going(p, w, b, s);
      Ends(p, w, n, b, s, o) <==> if e.Leave? then e.outcome == o else Ends(p, w, n - 1, e.target, e.state, o)
  {
    var e := Going(p, w, b, s);
    EndsIs(p, w, n, b, s, o);
    if e.To? { EndsIs(p, w, n - 1, e.target, e.state, o); }
  }

  /** A call that ends came back first. */
  lemma CallCameBack(p: Program, w: World, n: nat, b: BlockId, s: State, o: Outcome) returns (v: Outcome)
    requires Ends(p, w, n, b, s, o) && Calling(p, b)
    ensures n > 0 && Gives(p, w, n - 1, SiteAt(p, b).callee, ArgsAt(p, w, b, s), Ran(p, w, b, s).trace, v)
    ensures Ends(p, w, n - 1, SiteAt(p, b).target, Received(p, w, b, s, v), o)
  {
    EndsIs(p, w, n, b, s, o);
    v := Activate(p, w, n - 1, SiteAt(p, b).callee, ArgsAt(p, w, b, s), Ran(p, w, b, s).trace).value;
    GivesIs(p, w, n - 1, SiteAt(p, b).callee, ArgsAt(p, w, b, s), Ran(p, w, b, s).trace, v);
    EndsIs(p, w, n - 1, SiteAt(p, b).target, Received(p, w, b, s, v), o);
  }

  lemma CallEnds(p: Program, w: World, n: nat, b: BlockId, s: State, v: Outcome, o: Outcome)
    requires n > 0 && Calling(p, b) && !Stuck(p, w, b, s)
    requires Gives(p, w, n - 1, SiteAt(p, b).callee, ArgsAt(p, w, b, s), Ran(p, w, b, s).trace, v)
    requires Ends(p, w, n - 1, SiteAt(p, b).target, Received(p, w, b, s, v), o)
    ensures Ends(p, w, n, b, s, o)
  {
    GivesIs(p, w, n - 1, SiteAt(p, b).callee, ArgsAt(p, w, b, s), Ran(p, w, b, s).trace, v);
    EndsIs(p, w, n - 1, SiteAt(p, b).target, Received(p, w, b, s, v), o);
    EndsIs(p, w, n, b, s, o);
  }

  /** More steps change nothing once there are enough. */
  lemma {:induction false} EndsMore(p: Program, w: World, n: nat, m: nat, b: BlockId, s: State, o: Outcome)
    requires Ends(p, w, n, b, s, o) && n <= m
    ensures Ends(p, w, m, b, s, o)
    decreases n, 0
  {
    GetsOn(p, w, n, b, s, o);
    if Calling(p, b) {
      EndsMoreCalling(p, w, n, m, b, s, o);
    } else {
      EndsMoreStep(p, w, n, m, b, s, o);
    }
  }

  lemma {:induction false} EndsMoreStep(p: Program, w: World, n: nat, m: nat, b: BlockId, s: State, o: Outcome)
    requires Ends(p, w, n, b, s, o) && 0 < n <= m && !Stuck(p, w, b, s) && !Calling(p, b)
    ensures Ends(p, w, m, b, s, o)
    decreases n - 1, 2
  {
    StepEnds(p, w, n, b, s, o);
    var e := Going(p, w, b, s);
    if e.To? { EndsMore(p, w, n - 1, m - 1, e.target, e.state, o); }
    StepEnds(p, w, m, b, s, o);
  }

  lemma {:induction false} EndsMoreCalling(p: Program, w: World, n: nat, m: nat, b: BlockId, s: State, o: Outcome)
    requires Ends(p, w, n, b, s, o) && 0 < n <= m && !Stuck(p, w, b, s) && Calling(p, b)
    ensures Ends(p, w, m, b, s, o)
    decreases n - 1, 3
  {
    var v := CallCameBack(p, w, n, b, s, o);
    EndsMoreOverCall(p, w, n - 1, m - 1, b, s, v, o);
  }

  lemma {:induction false} EndsMoreOverCall(p: Program, w: World, n: nat, m: nat, b: BlockId, s: State, v: Outcome,
      o: Outcome)
    requires Calling(p, b) && !Stuck(p, w, b, s) && n <= m
    requires Gives(p, w, n, SiteAt(p, b).callee, ArgsAt(p, w, b, s), Ran(p, w, b, s).trace, v)
    requires Ends(p, w, n, SiteAt(p, b).target, Received(p, w, b, s, v), o)
    ensures Ends(p, w, m + 1, b, s, o)
    decreases n, 2
  {
    GivesMore(p, w, n, m, SiteAt(p, b).callee, ArgsAt(p, w, b, s), Ran(p, w, b, s).trace, v);
    EndsMore(p, w, n, m, SiteAt(p, b).target, Received(p, w, b, s, v), o);
    CallEnds(p, w, m + 1, b, s, v, o);
  }

  lemma {:induction false} GivesMore(p: Program, w: World, n: nat, m: nat, f: FuncId, args: seq<Val>, t: Trace,
      o: Outcome)
    requires Gives(p, w, n, f, args, t, o) && n <= m
    ensures Gives(p, w, m, f, args, t, o)
    decreases n, 1
  {
    EndsMore(p, w, n, m, p.functions[f].entry, State(Frame(p.functions[f], args), t), o);
  }

  lemma GivesInMore(p: Program, w: World, n: nat, m: nat, f: FuncId, args: seq<Val>, t: Trace, o: Outcome)
    requires f < |p.functions| && n <= m
    requires Ends(p, w, n, p.functions[f].entry, State(Frame(p.functions[f], args), t), o)
    ensures Gives(p, w, m, f, args, t, o)
  {
    EndsMore(p, w, n, m, p.functions[f].entry, State(Frame(p.functions[f], args), t), o);
  }

  lemma OneEnd(p: Program, w: World, n: nat, m: nat, b: BlockId, s: State, o: Outcome, v: Outcome)
    requires Ends(p, w, n, b, s, o) && Ends(p, w, m, b, s, v)
    ensures o == v
  {
    var most := if n <= m then m else n;
    EndsMore(p, w, n, most, b, s, o);
    EndsMore(p, w, m, most, b, s, v);
    EndsIs(p, w, most, b, s, o);
    EndsIs(p, w, most, b, s, v);
  }

  // ---------------------------------------------------------------- runs inside one frame

  /** The call this block makes can come back with `v`. */
  ghost predicate ComesBack(p: Program, w: World, b: BlockId, s: State, v: Outcome) {
    Returns(p, w, SiteAt(p, b).callee, ArgsAt(p, w, b, s), Ran(p, w, b, s).trace, v)
  }

  /** `n` blocks on, still in the same frame, control is at `c` in `u`; calls on the way came back. */
  ghost predicate Path(p: Program, w: World, n: nat, b: BlockId, s: State, c: BlockId, u: State)
    decreases n
  {
    if n == 0 then b == c && s == u
    else if Stuck(p, w, b, s) then false
    else if Calling(p, b) then
      exists v: Outcome {:trigger ComesBack(p, w, b, s, v)} ::
        ComesBack(p, w, b, s, v) && Path(p, w, n - 1, SiteAt(p, b).target, Received(p, w, b, s, v), c, u)
    else
      Going(p, w, b, s).To? && Path(p, w, n - 1, Going(p, w, b, s).target, Going(p, w, b, s).state, c, u)
  }
}
