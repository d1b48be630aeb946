/** A cycle of mutually tail-recursive functions collapsed into one: the members become blocks of a
    dispatcher, a tail call between them becomes a jump, and each function stays as a wrapper. */
module Trampoline {
  import opened Cfg
  import opened CfgRun
  import opened Calls
  import opened TailCalls
  import Core
  import Definitions
  import Flow
  import PureCalls

  // ---------------------------------------------------------------- what is collapsed, and into what

  /** The dispatcher's pieces, all of them new. */
  datatype Layout = Layout(dispatch: FuncId, entry: BlockId, stuck: BlockId, selector: ValueId,
                           wrappers: seq<BlockId>, exits: seq<BlockId>, results: seq<ValueId>)

  predicate InRange(p: Program, members: seq<FuncId>) {
    forall i: nat {:trigger members[i]} :: i < |members| ==> members[i] < |p.functions|
  }

  function Entries(p: Program, members: seq<FuncId>): seq<BlockId>
    requires InRange(p, members)
  {
    seq(|members|, i requires 0 <= i < |members| => p.functions[members[i]].entry)
  }

  /** The members' parameters one after the other. */
  function Pack(p: Program, members: seq<FuncId>, n: nat): seq<ValueId>
    requires n <= |members|
  {
    if n == 0 then []
    else Pack(p, members, n - 1) + (if members[n - 1] < |p.functions| then p.functions[members[n - 1]].params else [])
  }

  /** What the wrapper of member `i` passes for them: its own arguments, and unit for the others. */
  function PackArgs(p: Program, members: seq<FuncId>, i: nat, n: nat): seq<Expr>
    requires n <= |members| && InRange(p, members)
  {
    if n == 0 then []
    else
      var slot := p.functions[members[n - 1]].params;
      PackArgs(p, members, i, n - 1)
      + seq(|slot|, k requires 0 <= k < |slot| => if n - 1 == i then Value(slot[k]) else Literal(Unit))
  }

  /** A tail call of a member. */
  ghost predicate CallsMember(p: Program, members: seq<FuncId>, b: BlockId) {
    b < |p.blocks| && IsTail(p, b) && CallsTo(p, members, b)
  }

  /** The function runs through the block, before any tail call of its own. */
  ghost predicate InReach(p: Program, tails: set<BlockId>, f: FuncId, b: BlockId)
    requires f < |p.functions|
  {
    Flow.View(p, p.functions[f].entry, tails).Reachable(b)
  }

  /** Of one function's blocks, the tail calls to members. */
  ghost function JumpsOf(p: Program, tails: set<BlockId>, members: seq<FuncId>, f: FuncId): set<BlockId>
    requires f < |p.functions|
  {
    set b: BlockId | b < |p.blocks| && b in tails && CallsTo(p, members, b) && InReach(p, tails, f, b)
  }

  predicate CallsTo(p: Program, members: seq<FuncId>, b: BlockId)
    requires b < |p.blocks|
  {
    CallIn(p.blocks[b].term).Some? && CallIn(p.blocks[b].term).value.callee in members
  }

  /** The tail calls of members in the reach of the first `n` members. */
  ghost function CycleJumps(p: Program, tails: set<BlockId>, members: seq<FuncId>, n: nat): set<BlockId>
    requires n <= |members| && InRange(p, members)
  {
    if n == 0 then {} else CycleJumps(p, tails, members, n - 1) + JumpsOf(p, tails, members, members[n - 1])
  }

  function CalleeAt(p: Program, b: BlockId): Function {
    var f := SiteAt(p, b).callee;
    if f < |p.functions| then p.functions[f] else Function([], 0)
  }

  /** The block with its call made a jump to the callee's entry. */
  function Jumping(p: Program, b: BlockId): Block
    requires b < |p.blocks|
  {
    p.blocks[b].(term := Goto(CalleeAt(p, b).entry, SiteAt(p, b).args))
  }

  /** `q` is `p` with the members collapsed and the tail calls in `jumps` made jumps. */
  ghost predicate IsCollapse(p: Program, members: seq<FuncId>, jumps: set<BlockId>, q: Program, l: Layout)
    requires InRange(p, members)
  {
    && l.dispatch == |p.functions| && |q.functions| == |p.functions| + 1 && |q.blocks| == |p.blocks| + 2 + 2 * |members|
    && l.entry == |p.blocks| && l.stuck == |p.blocks| + 1
    && |l.wrappers| == |l.exits| == |l.results| == |members|
    && (forall b: BlockId {:trigger CallsMember(p, members, b)} :: b in jumps ==> CallsMember(p, members, b))
    && (forall b: BlockId {:trigger RewrittenTo(p, members, jumps, b, q.blocks[b])} :: b < |p.blocks| ==>
      RewrittenTo(p, members, jumps, b, q.blocks[b]))
    && (forall f: FuncId {:trigger q.functions[f]} :: f < |p.functions| && f !in members ==>
      q.functions[f] == p.functions[f])
    && l.selector !in Pack(p, members, |members|)
    && q.functions[l.dispatch] == Function([l.selector] + Pack(p, members, |members|), l.entry)
    && l.entry < |q.blocks|
      && q.blocks[l.entry]
        == Block([l.selector] + Pack(p, members, |members|), [],
          Switch(Value(l.selector), Entries(p, members), l.stuck))
    && l.stuck < |q.blocks| && q.blocks[l.stuck] == Block([], [], Unreachable)
    && (forall i: nat {:trigger WrapperAt(p, members, q, l, i)} :: i < |members| ==> WrapperAt(p, members, q, l, i))
  }

  ghost predicate RewrittenTo(p: Program, members: seq<FuncId>, jumps: set<BlockId>, b: BlockId, block: Block)
    requires b < |p.blocks| && InRange(p, members)
  {
    if b in jumps then CallsMember(p, members, b) && block == Jumping(p, b) else block == p.blocks[b]
  }

  ghost predicate WrapperAt(p: Program, members: seq<FuncId>, q: Program, l: Layout, i: nat)
    requires i < |members| == |l.wrappers| == |l.exits| == |l.results| && InRange(p, members)
      && |p.functions| < |q.functions|
  {
    var f := members[i];
    && q.functions[f] == p.functions[f].(entry := l.wrappers[i])
    && l.exits[i] == |p.blocks| + 2 + 2 * i && l.wrappers[i] == |p.blocks| + 3 + 2 * i && l.wrappers[i] < |q.blocks|
    && q.blocks[l.wrappers[i]] == Block(p.functions[f].params, [],
         Call(l.dispatch, [Literal(Int(i))] + PackArgs(p, members, i, |members|), l.results[i], l.exits[i]))
    && q.blocks[l.exits[i]] == Block([l.results[i]], [], Return(Value(l.results[i])))
  }

  // ---------------------------------------------------------------- what is asked of the program

  /** The edges out of a block stay in the program, and each parameter they lead to is filled in by
      the edge or among `vars`, which hold a value already. */
  ghost predicate EdgesFill(p: Program, b: BlockId, vars: set<ValueId>)
    requires b < |p.blocks|
  {
    match p.blocks[b].term
    case Return(_) => true
    case Unreachable => true
    case Goto(target, args) => target < |p.blocks| && |p.blocks[target].params| <= |args|
    case Branch(_, x, y) => Filled(p, x, vars) && Filled(p, y, vars)
    case Match(_, arms, default) =>
      Filled(p, default, vars) && forall i: nat {:trigger ArmFills(p, arms[i])} :: i < |arms| ==> ArmFills(p, arms[i])
    case Switch(_, targets, default) =>
      Filled(p, default, vars) && forall i: nat {:trigger Filled(p, targets[i], vars)} :: i < |targets| ==>
        Filled(p, targets[i], vars)
    case Call(_, _, result, target) => Filled(p, target, vars + {result})
    case Perform(_, _, _, binding, target) => Filled(p, target, vars + Core.OptionSet(binding))
    case GotoCall(target, _, _) => target < |p.blocks| && |p.blocks[target].params| <= 1
  }

  predicate ArmFills(p: Program, arm: MatchArm) {
    arm.target < |p.blocks| && p.blocks[arm.target].params == arm.binders
  }

  predicate Filled(p: Program, b: BlockId, vars: set<ValueId>) {
    b < |p.blocks| && Definitions.Params(p.blocks[b].params) <= vars
  }

  /** Calls name functions of the program and pass them all their arguments. */
  ghost predicate CallFits(p: Program, b: BlockId)
    requires b < |p.blocks|
  {
    var site := CallIn(p.blocks[b].term);
    site.Some? ==> site.value.callee < |p.functions| && |p.functions[site.value.callee].params| <= |site.value.args|
  }

  ghost predicate WellFormed(p: Program) {
    && (forall b: BlockId {:trigger CallFits(p, b)} :: b < |p.blocks| ==> CallFits(p, b))
    && (forall f: FuncId {:trigger p.functions[f]} :: f < |p.functions| ==> p.functions[f].entry < |p.blocks|)
  }

  /** Members are functions of the program, each once; their entries take their parameters; and no
      value is a parameter of theirs twice. */
  ghost predicate Members(p: Program, members: seq<FuncId>) {
    && InRange(p, members) && Flow.Distinct(members)
    && (forall f: FuncId {:trigger f in members} :: f in members ==>
      p.functions[f].entry < |p.blocks| && p.blocks[p.functions[f].entry].params == p.functions[f].params)
    && Flow.Distinct(Pack(p, members, |members|))
  }

  /** `known[b]` are values defined whenever a run comes to `b`: enough for all that runs from there. */
  ghost predicate Knows(p: Program, known: seq<set<ValueId>>) {
    |known| == |p.blocks| &&
    forall b: BlockId {:trigger KnowsAt(p, known, b)} :: b < |p.blocks| ==> KnowsAt(p, known, b)
  }

  ghost predicate KnowsAt(p: Program, known: seq<set<ValueId>>, b: BlockId)
    requires b < |p.blocks| == |known|
  {
    && Definitions.ReadsDefined(p, b, known[b]) && EdgesFill(p, b, known[b] + Definitions.DefinitionsIn(p, b))
    && forall c {:trigger c in p.blocks[b].term.Successors()} ::
      c in p.blocks[b].term.Successors() && c < |p.blocks| ==>
         known[c] <= known[b] + Definitions.DefinitionsIn(p, b)
  }

  // ---------------------------------------------------------------- frames that agree

  ghost predicate Same(a: Store, b: Store, vars: set<ValueId>) {
    forall v {:trigger v in vars} :: v in vars ==> Load(a, v) == Load(b, v)
  }

  lemma SameBind(a: Store, b: Store, vars: set<ValueId>, x: ValueId, v: Val)
    requires Same(a, b, vars)
    ensures Same(a[x := v], b[x := v], vars + {x})
  {
    forall y | y in vars + {x} ensures Load(a[x := v], y) == Load(b[x := v], y) {
      if y != x { assert y in vars; }
    }
  }

  lemma {:induction false} ReadsSame(w: World, e: Expr, a: Store, b: Store, vars: set<ValueId>)
    requires Definitions.Reads(e) <= vars && Same(a, b, vars)
    ensures ValueOf(w, e, a) == ValueOf(w, e, b) && ExprAnswered(w, e, a) == ExprAnswered(w, e, b)
    decreases e
  {
    match e
    case Unary(_, operand) => ReadsSame(w, operand, a, b, vars);
    case Binary(_, lhs, rhs) => ReadsSame(w, lhs, a, b, vars); ReadsSame(w, rhs, a, b, vars);
    case Prim(_, args) => AllReadsSame(w, args, a, b, vars);
    case PureCall(_, args) => AllReadsSame(w, args, a, b, vars);
    case Value(v) => assert v in vars;
    case Literal(_) =>
  }

  lemma {:induction false} AllReadsSame(w: World, es: seq<Expr>, a: Store, b: Store, vars: set<ValueId>)
    requires Definitions.ReadsOfAll(es) <= vars && Same(a, b, vars)
    ensures ValuesOf(w, es, a) == ValuesOf(w, es, b) && AllAnswered(w, es, a) == AllAnswered(w, es, b)
    decreases es
  {
    forall i | 0 <= i < |es|
      ensures ValueOf(w, es[i], a) == ValueOf(w, es[i], b) && ExprAnswered(w, es[i], a) == ExprAnswered(w, es[i], b)
    {
      OneOfAll(es, i);
      ReadsSame(w, es[i], a, b, vars);
    }
  }

  lemma {:induction false} OneOfAll(es: seq<Expr>, i: nat)
    requires i < |es|
    ensures Definitions.Reads(es[i]) <= Definitions.ReadsOfAll(es)
    decreases |es|
  {
    if i < |es| - 1 { OneOfAll(es[..|es| - 1], i); }
  }

  lemma StepSame(w: World, i: Instr, a: State, b: State, vars: set<ValueId>)
    requires Definitions.InstrReads(i) <= vars && a.trace == b.trace && Same(a.store, b.store, vars)
    ensures InstrAnswered(w, i, a.store) == InstrAnswered(w, i, b.store)
    ensures Step(w, i, a).trace == Step(w, i, b).trace
      && Same(Step(w, i, a).store, Step(w, i, b).store, vars + Definitions.InstrResult(i))
  {
    match i
    case Let(r, value) =>
      ReadsSame(w, value, a.store, b.store, vars); SameBind(a.store, b.store, vars, r, ValueOf(w, value, a.store));
    case Eval(r, value) =>
      ReadsSame(w, value, a.store, b.store, vars); SameBind(a.store, b.store, vars, r, ValueOf(w, value, a.store));
    case _ =>
  }

  lemma {:induction false} InstrsSame(w: World, block: Block, incoming: set<ValueId>, a: State, b: State, n: nat)
    requires n <= |block.instrs| && Definitions.InstrsReadDefined(block, incoming, |block.instrs|)
    requires a.trace == b.trace && Same(a.store, b.store, incoming + Definitions.Params(block.params))
    ensures var x, y := RunInstrs(w, block.instrs[..n], a), RunInstrs(w, block.instrs[..n], b);
      x.trace == y.trace
        && Same(x.store, y.store, incoming + Definitions.Params(block.params) + Definitions.Results(block.instrs, n))
    ensures InstrsAnswered(w, block.instrs[..n], a) == InstrsAnswered(w, block.instrs[..n], b)
    decreases n
  {
    if n > 0 {
      InstrsSame(w, block, incoming, a, b, n - 1);
      assert block.instrs[..n][..n - 1] == block.instrs[..n - 1];
      assert Definitions.InstrReadsDefined(block, incoming, n - 1);
      StepSame(w, block.instrs[n - 1], RunInstrs(w, block.instrs[..n - 1], a), RunInstrs(w, block.instrs[..n - 1], b),
        incoming + Definitions.Params(block.params) + Definitions.Results(block.instrs, n - 1));
    }
  }

  lemma {:induction false} PassSame(params: seq<ValueId>, values: seq<Val>, n: nat, a: Store, b: Store,
      vars: set<ValueId>)
    requires n <= Core.Paired(params, values) && Same(a, b, vars)
    ensures Same(Core.BindAll(a, params, values, n), Core.BindAll(b, params, values, n),
      vars + Definitions.Params(params[..n]))
    decreases n
  {
    if n > 0 {
      PassSame(params, values, n - 1, a, b, vars);
      assert params[..n] == params[..n - 1] + [params[n - 1]];
      assert Definitions.Params(params[..n]) == Definitions.Params(params[..n - 1]) + {params[n - 1]};
      SameBind(Core.BindAll(a, params, values, n - 1), Core.BindAll(b, params, values, n - 1),
        vars + Definitions.Params(params[..n - 1]), params[n - 1], values[n - 1]);
    }
  }

  /** All of a parameter list filled in. */
  lemma PassFills(params: seq<ValueId>, values: seq<Val>, a: Store, b: Store, vars: set<ValueId>)
    requires |params| <= |values| && Same(a, b, vars)
    ensures Same(Pass(params, values, a), Pass(params, values, b), vars + Definitions.Params(params))
  {
    PassSame(params, values, |params|, a, b, vars);
    assert params[..|params|] == params;
  }

  ghost predicate SameParams(p: Program, q: Program) {
    |p.blocks| <= |q.blocks| && forall b: BlockId {:trigger q.blocks[b]} :: b < |p.blocks| ==>
      q.blocks[b].params == p.blocks[b].params
  }

  ghost predicate SameNext(p: Program, term: Terminator, x: Next, y: Next, vars: set<ValueId>) {
    if x.Leave? then x == y
    else
      && y.To? && y.target == x.target && x.target in term.Successors() && x.target < |p.blocks|
        && x.state.trace == y.state.trace
      && Same(x.state.store, y.state.store, vars + Definitions.Params(p.blocks[x.target].params))
  }

  /** A block's own edge leads to the same place, with its parameters filled in alike. */
  lemma FollowAlike(p: Program, q: Program, w: World, b: BlockId, x: State, y: State, vars: set<ValueId>)
    requires b < |p.blocks| && SameParams(p, q) && EdgesFill(p, b, vars) && CallIn(p.blocks[b].term).None?
      && !p.blocks[b].term.Unreachable?
    requires Definitions.ReadsOfAll(p.blocks[b].term.Operands()) <= vars && Same(x.store, y.store, vars)
      && x.trace == y.trace
    ensures SameNext(p, p.blocks[b].term, Follow(w, p.blocks, p.blocks[b].term, x),
      Follow(w, q.blocks, p.blocks[b].term, y), vars)
  {
    var term := p.blocks[b].term;
    AllReadsSame(w, term.Operands(), x.store, y.store, vars);
    match term
    case Return(value) => OneOperand(w, term, value, x.store, y.store);
    case Goto(target, args) =>
      assert q.blocks[target].params == p.blocks[target].params;
      PassFills(p.blocks[target].params, ValuesOf(w, args, x.store), x.store, y.store, vars);
    case Branch(cond, _, _) => OneOperand(w, term, cond, x.store, y.store);
    case Match(_, _, _) => MatchAlike(p, q, w, b, x, y, vars);
    case Switch(selector, targets, default) =>
      OneOperand(w, term, selector, x.store, y.store);
      var v := ValueOf(w, selector, x.store);
      if v.Int? && 0 <= v.i < |targets| { assert Filled(p, targets[v.i], vars); }
    case Perform(effect, operation, args, binding, target) =>
      if binding.Some? {
        var event := Core.Performed(effect, operation, ValuesOf(w, args, x.store));
        SameBind(x.store, y.store, vars, binding.value, w.answer(x.trace, event));
      }
  }

  lemma MatchAlike(p: Program, q: Program, w: World, b: BlockId, x: State, y: State, vars: set<ValueId>)
    requires b < |p.blocks| && SameParams(p, q) && EdgesFill(p, b, vars) && p.blocks[b].term.Match?
    requires Definitions.ReadsOfAll(p.blocks[b].term.Operands()) <= vars && Same(x.store, y.store, vars)
      && x.trace == y.trace
    ensures SameNext(p, p.blocks[b].term, Follow(w, p.blocks, p.blocks[b].term, x),
      Follow(w, q.blocks, p.blocks[b].term, y), vars)
  {
    var Match(scrutinee, arms, default) := p.blocks[b].term;
    AllReadsSame(w, p.blocks[b].term.Operands(), x.store, y.store, vars);
    OneOperand(w, p.blocks[b].term, scrutinee, x.store, y.store);
    var v := ValueOf(w, scrutinee, x.store);
    if v.Ctor? && Selected(arms, v.tag).Some? {
      var i := Selected(arms, v.tag).value;
      PassSame(arms[i].binders, Core.Padded(v.fields, |arms[i].binders|), |arms[i].binders|, x.store, y.store, vars);
      assert arms[i].binders[..|arms[i].binders|] == arms[i].binders;
      assert ArmFills(p, arms[i]);
    }
  }

  lemma OneOperand(w: World, term: Terminator, e: Expr, x: Store, y: Store)
    requires term.Operands() == [e] && ValuesOf(w, term.Operands(), x) == ValuesOf(w, term.Operands(), y)
    ensures ValueOf(w, e, x) == ValueOf(w, e, y)
  {
    assert ValuesOf(w, [e], x)[0] == ValueOf(w, e, x);
    assert ValuesOf(w, [e], y)[0] == ValueOf(w, e, y);
  }

  ghost predicate Alike(p: Program, known: seq<set<ValueId>>, b: BlockId, x: State, y: State)
    requires b < |p.blocks| == |known|
  {
    x.trace == y.trace && Same(x.store, y.store, known[b] + Definitions.Params(p.blocks[b].params))
  }

  /** Frames that agree on all that may be read from `b` on. Folded away: `Open` is its definition. */
  ghost predicate Related(p: Program, known: seq<set<ValueId>>, b: BlockId, x: State, y: State)
    requires b < |p.blocks| == |known|
  {
    !Unrelated(p, known, b, x, y)
  }

  /** They differ in something that may be read. */
  ghost predicate Unrelated(p: Program, known: seq<set<ValueId>>, b: BlockId, x: State, y: State)
    requires b < |p.blocks| == |known|
  {
    exists k: nat {:trigger Folded((p, known, b, x, y), k)} ::
      Folded((p, known, b, x, y), k) && !Alike(p, known, b, x, y)
  }

  lemma Open(p: Program, known: seq<set<ValueId>>, b: BlockId, x: State, y: State)
    requires b < |p.blocks| == |known| && Related(p, known, b, x, y)
    ensures Alike(p, known, b, x, y)
  {
    assert Folded((p, known, b, x, y), 0);
  }

  /** Through a block's instructions, what it may read stays alike. */
  lemma ThroughBlock(p: Program, w: World, known: seq<set<ValueId>>, b: BlockId, x: State, y: State)
    requires Knows(p, known) && b < |p.blocks| && Related(p, known, b, x, y)
    ensures var x1, y1 := RunInstrs(w, p.blocks[b].instrs, x), RunInstrs(w, p.blocks[b].instrs, y);
      x1.trace == y1.trace && Same(x1.store, y1.store, known[b] + Definitions.DefinitionsIn(p, b))
      && ValuesOf(w, p.blocks[b].term.Operands(), x1.store) == ValuesOf(w, p.blocks[b].term.Operands(), y1.store)
    ensures AnsweredIn(w, p.blocks[b], x) == AnsweredIn(w, p.blocks[b], y)
  {
    assert KnowsAt(p, known, b);
    Open(p, known, b, x, y);
    var block := p.blocks[b];
    InstrsSame(w, block, known[b], x, y, |block.instrs|);
    assert block.instrs[..|block.instrs|] == block.instrs;
    var vars := known[b] + Definitions.DefinitionsIn(p, b);
    assert vars == known[b] + Definitions.Params(block.params) + Definitions.Results(block.instrs, |block.instrs|);
    AllReadsSame(w, block.term.Operands(), RunInstrs(w, block.instrs, x).store, RunInstrs(w, block.instrs, y).store,
      vars);
  }

  // ---------------------------------------------------------------- entering the dispatcher

  /** A program, what it became, and what is known at its blocks: nothing yet at a member's entry. */
  datatype Collapsed = Collapsed(p: Program, members: seq<FuncId>, jumps: set<BlockId>, q: Program, l: Layout,
      known: seq<set<ValueId>>) {
    /** The sizes, and the rest folded away: a proof that needs it calls `Unfold`. */
    ghost predicate Valid() { !Broken() }

    /** Not such a collapse. */
    ghost predicate Broken() { !Sized() || exists k: nat {:trigger Folded(this, k)} :: Folded(this, k) && !Holds() }

    ghost predicate Sized() {
      && InRange(p, members) && |p.functions| < |q.functions| && |known| == |p.blocks|
        && |q.blocks| == |p.blocks| + 2 + 2 * |members|
      && l.entry == |p.blocks| && l.stuck == |p.blocks| + 1 && |l.wrappers| == |l.exits| == |l.results| == |members|
    }

    ghost predicate Holds() {
      && WellFormed(p) && Members(p, members) && IsCollapse(p, members, jumps, q, l) && Knows(p, known)
      && forall i: nat {:trigger members[i]} :: i < |members| ==> known[p.functions[members[i]].entry] == {}
    }

    lemma Unfold()
      requires Valid()
      ensures Holds()
    {
      assert Folded(this, 0);
    }
  }

  lemma {:induction false} BoundAt(params: seq<ValueId>, values: seq<Val>, n: nat, store: Store, k: nat)
    requires Flow.Distinct(params) && k < n <= Core.Paired(params, values)
    ensures Load(Core.BindAll(store, params, values, n), params[k]) == values[k]
    decreases n
  {
    if k < n - 1 { BoundAt(params, values, n - 1, store, k); }
  }

  /** The member's own parameters sit together in the pack, and the wrapper passes them on. */
  lemma PackedAt(p: Program, members: seq<FuncId>, i: nat, n: nat, pack: seq<ValueId>, args: seq<Expr>)
    returns (start: nat)
    requires i < n <= |members| && InRange(p, members) && pack == Pack(p, members, n)
      && args == PackArgs(p, members, i, n)
    ensures var slot := p.functions[members[i]].params;
      && |args| == |pack| && start + |slot| <= |pack|
      && forall k: nat {:trigger slot[k]} :: k < |slot| ==>
        pack[start + k] == slot[k] && args[start + k] == Value(slot[k])
  {
    PackSizes(p, members, i, i);
    PackSizes(p, members, i, n);
    PackGrows(p, members, i, i + 1, n);
    start := |Pack(p, members, i)|;
    OwnSlot(p, members, i, pack, args);
  }

  lemma OwnSlot(p: Program, members: seq<FuncId>, i: nat, pack: seq<ValueId>, args: seq<Expr>)
    requires i < |members| && InRange(p, members) && |PackArgs(p, members, i, i)| == |Pack(p, members, i)|
    requires Pack(p, members, i + 1) <= pack && PackArgs(p, members, i, i + 1) <= args
    ensures var slot, start := p.functions[members[i]].params, |Pack(p, members, i)|;
      && start + |slot| <= |pack| && start + |slot| <= |args|
      && forall k: nat {:trigger slot[k]} :: k < |slot| ==>
        pack[start + k] == slot[k] && args[start + k] == Value(slot[k])
  {
    var slot := p.functions[members[i]].params;
    var values := seq(|slot|, k requires 0 <= k < |slot| => Value(slot[k]));
    assert Pack(p, members, i + 1) == Pack(p, members, i) + slot;
    assert PackArgs(p, members, i, i + 1) == PackArgs(p, members, i, i) + values;
  }

  lemma {:induction false} PackGrows(p: Program, members: seq<FuncId>, i: nat, n: nat, m: nat)
    requires n <= m <= |members| && InRange(p, members)
    ensures Pack(p, members, n) <= Pack(p, members, m) && PackArgs(p, members, i, n) <= PackArgs(p, members, i, m)
    decreases m
  {
    if n < m { PackGrows(p, members, i, n, m - 1); }
  }

  lemma {:induction false} PackSizes(p: Program, members: seq<FuncId>, i: nat, n: nat)
    requires n <= |members| && InRange(p, members)
    ensures |PackArgs(p, members, i, n)| == |Pack(p, members, n)|
    decreases n
  {
    if n > 0 { PackSizes(p, members, i, n - 1); }
  }

  function WrapperArgs(p: Program, members: seq<FuncId>, i: nat): seq<Expr>
    requires i < |members| && InRange(p, members)
  {
    [Literal(Int(i))] + PackArgs(p, members, i, |members|)
  }

  /** The dispatcher's frame when the wrapper of member `i` has called it. */
  function DispatchFrame(p: Program, members: seq<FuncId>, selector: ValueId, w: World, i: nat, args: seq<Val>): Store
    requires i < |members| && InRange(p, members)
  {
    Pass([selector] + Pack(p, members, |members|),
      ValuesOf(w, WrapperArgs(p, members, i), Frame(p.functions[members[i]], args)), map[])
  }

  lemma DistinctPack(selector: ValueId, pack: seq<ValueId>)
    requires Flow.Distinct(pack) && selector !in pack
    ensures Flow.Distinct([selector] + pack)
  {
    var params := [selector] + pack;
    forall a, b | 0 <= a < b < |params| ensures params[a] != params[b] {
      assert params[b] == pack[b - 1];
      if a > 0 { assert params[a] == pack[a - 1]; }
    }
  }

  /** Where `exprs` pass on `slot` under its own names, the new frame agrees on it with the old. */
  lemma PassedOn(params: seq<ValueId>, exprs: seq<Expr>, w: World, frame: Store, start: nat, slot: seq<ValueId>)
    requires Flow.Distinct(params) && |exprs| == |params| && start + |slot| <= |params|
    requires forall k: nat {:trigger slot[k]} :: k < |slot| ==>
      params[start + k] == slot[k] && exprs[start + k] == Value(slot[k])
    ensures Same(frame, Pass(params, ValuesOf(w, exprs, frame), map[]), Definitions.Params(slot))
  {
    forall v | v in Definitions.Params(slot)
      ensures Load(frame, v) == Load(Pass(params, ValuesOf(w, exprs, frame), map[]), v)
    {
      var k: nat :| k < |slot| && slot[k] == v;
      BoundAt(params, ValuesOf(w, exprs, frame), |params|, map[], start + k);
    }
  }

  lemma DispatchFrameHolds(p: Program, members: seq<FuncId>, selector: ValueId, w: World, i: nat, args: seq<Val>)
    requires i < |members| && InRange(p, members) && Flow.Distinct(Pack(p, members, |members|))
      && selector !in Pack(p, members, |members|)
    ensures Load(DispatchFrame(p, members, selector, w, i, args), selector) == Int(i)
    ensures Same(Frame(p.functions[members[i]], args), DispatchFrame(p, members, selector, w, i, args),
      Definitions.Params(p.functions[members[i]].params))
  {
    var slot := p.functions[members[i]].params;
    var pack, packArgs := Pack(p, members, |members|), PackArgs(p, members, i, |members|);
    var start := PackedAt(p, members, i, |members|, pack, packArgs);
    FrameHolds(selector, pack, packArgs, w, Frame(p.functions[members[i]], args), i, start, slot);
  }

  lemma FrameHolds(selector: ValueId, pack: seq<ValueId>, packArgs: seq<Expr>, w: World, frame: Store, i: nat,
      start: nat, slot: seq<ValueId>)
    requires Flow.Distinct(pack) && selector !in pack && |packArgs| == |pack| && start + |slot| <= |pack|
    requires forall k: nat {:trigger slot[k]} :: k < |slot| ==>
      pack[start + k] == slot[k] && packArgs[start + k] == Value(slot[k])
    ensures var made := Pass([selector] + pack, ValuesOf(w, [Literal(Int(i))] + packArgs, frame), map[]);
      Load(made, selector) == Int(i) && Same(frame, made, Definitions.Params(slot))
  {
    var params, exprs := [selector] + pack, [Literal(Int(i))] + packArgs;
    DistinctPack(selector, pack);
    HeadPassed(selector, pack, packArgs, i, start, slot);
    SelectorHolds(params, exprs, w, frame, i);
    PassedOn(params, exprs, w, frame, start + 1, slot);
  }

  lemma SelectorHolds(params: seq<ValueId>, exprs: seq<Expr>, w: World, frame: Store, i: nat)
    requires Flow.Distinct(params) && |exprs| == |params| && params != [] && exprs[0] == Literal(Int(i))
    ensures Load(Pass(params, ValuesOf(w, exprs, frame), map[]), params[0]) == Int(i)
  {
    BoundAt(params, ValuesOf(w, exprs, frame), |params|, map[], 0);
  }

  lemma HeadPassed(selector: ValueId, pack: seq<ValueId>, packArgs: seq<Expr>, i: nat, start: nat, slot: seq<ValueId>)
    requires |packArgs| == |pack| && start + |slot| <= |pack|
    requires forall k: nat {:trigger slot[k]} :: k < |slot| ==>
      pack[start + k] == slot[k] && packArgs[start + k] == Value(slot[k])
    ensures forall k: nat {:trigger slot[k]} :: k < |slot| ==>
      ([selector] + pack)[start + 1 + k] == slot[k] && ([Literal(Int(i))] + packArgs)[start + 1 + k] == Value(slot[k])
  {}

  /** Expressions that only pass values on. */
  predicate Passive(exprs: seq<Expr>) { forall e :: e in exprs ==> e.Value? || e.Literal? }

  lemma PassiveAnswered(w: World, exprs: seq<Expr>, store: Store)
    requires Passive(exprs)
    ensures AllAnswered(w, exprs, store)
  {
    forall i | 0 <= i < |exprs| ensures ExprAnswered(w, exprs[i], store) { assert exprs[i] in exprs; }
  }

  lemma {:induction false} PackArgsPassive(p: Program, members: seq<FuncId>, i: nat, n: nat)
    requires n <= |members| && InRange(p, members)
    ensures Passive(PackArgs(p, members, i, n))
  {
    if n > 0 { PackArgsPassive(p, members, i, n - 1); }
  }

  /** The dispatcher goes to the member its selector names. */
  lemma DispatcherRuns(q: Program, w: World, m: nat, l: Layout, params: seq<ValueId>, entries: seq<BlockId>, i: nat,
      s: State, o: Outcome)
    requires l.entry < |q.blocks| && q.blocks[l.entry] == Block(params, [], Switch(Value(l.selector), entries, l.stuck))
    requires i < |entries| && Load(s.store, l.selector) == Int(i) && m >= 1
    ensures Ends(q, w, m, l.entry, s, o) <==> Ends(q, w, m - 1, entries[i], s, o)
  {
    PassiveAnswered(w, [Value(l.selector)], s.store);
    StepEnds(q, w, m, l.entry, s, o);
  }

  lemma ExitReturns(q: Program, w: World, m: nat, exit: BlockId, r: ValueId, v: Outcome, o: Outcome, store: Store)
    requires exit < |q.blocks| && q.blocks[exit] == Block([r], [], Return(Value(r))) && m >= 1
    ensures Ends(q, w, m, exit, State(store[r := v.value], v.trace), o) <==> v == o
  {
    PassiveAnswered(w, [Value(r)], store[r := v.value]);
    StepEnds(q, w, m, exit, State(store[r := v.value], v.trace), o);
  }

  /** Calling a member is running its entry in the dispatcher's frame. */
  lemma WrapperRuns(z: Collapsed, w: World, m: nat, i: nat, args: seq<Val>, t: Trace, o: Outcome)
    requires z.Valid() && i < |z.members|
    ensures Gives(z.q, w, m, z.members[i], args, t, o)
      <==> m >= 2 && Ends(z.q, w, m - 2, z.p.functions[z.members[i]].entry,
        State(DispatchFrame(z.p, z.members, z.l.selector, w, i, args), t), o)
  {
    z.Unfold();
    assert WrapperAt(z.p, z.members, z.q, z.l, i);
    DispatchFrameHolds(z.p, z.members, z.l.selector, w, i, args);
    assert Entries(z.p, z.members)[i] == z.p.functions[z.members[i]].entry;
    PackArgsPassive(z.p, z.members, i, |z.members|);
    WrapperSteps(z.q, w, m, z.l, [z.l.selector] + Pack(z.p, z.members, |z.members|), Entries(z.p, z.members), i,
      z.members[i],
      z.p.functions[z.members[i]].params, WrapperArgs(z.p, z.members, i), args, t, o);
  }

  lemma WrapperSteps(q: Program, w: World, m: nat, l: Layout, params: seq<ValueId>, entries: seq<BlockId>, i: nat,
      f: FuncId, slot: seq<ValueId>, exprs: seq<Expr>, args: seq<Val>, t: Trace, o: Outcome)
    requires l.entry < |q.blocks| && q.blocks[l.entry] == Block(params, [], Switch(Value(l.selector), entries, l.stuck))
    requires l.dispatch < |q.functions| && q.functions[l.dispatch] == Function(params, l.entry) && f < |q.functions|
    requires i < |entries| && i < |l.wrappers| && i < |l.exits| && i < |l.results|
    requires q.functions[f] == Function(slot, l.wrappers[i]) && l.wrappers[i] < |q.blocks| && l.exits[i] < |q.blocks|
    requires q.blocks[l.wrappers[i]] == Block(slot, [], Call(l.dispatch, exprs, l.results[i], l.exits[i]))
    requires q.blocks[l.exits[i]] == Block([l.results[i]], [], Return(Value(l.results[i]))) && Passive(exprs)
    requires var frame := Pass(slot, args, map[]);
      Load(Pass(params, ValuesOf(w, exprs, frame), map[]), l.selector) == Int(i)
    ensures var frame := Pass(slot, args, map[]);
      Gives(q, w, m, f, args, t, o) <==>
        m >= 2 && Ends(q, w, m - 2, entries[i], State(Pass(params, ValuesOf(w, exprs, frame), map[]), t), o)
  {
    var frame := Pass(slot, args, map[]);
    var b, start, inside := l.wrappers[i], State(frame, t), State(Pass(params, ValuesOf(w, exprs, frame), map[]), t);
    PassiveAnswered(w, exprs, frame);
    if Gives(q, w, m, f, args, t, o) {
      var v := CallCameBack(q, w, m, b, start, o);
      GetsOn(q, w, m - 1, l.entry, inside, v);
      DispatcherRuns(q, w, m - 1, l, params, entries, i, inside, v);
      ExitReturns(q, w, m - 1, l.exits[i], l.results[i], v, o, frame);
    }
    if m >= 2 && Ends(q, w, m - 2, entries[i], inside, o) {
      DispatcherRuns(q, w, m - 1, l, params, entries, i, inside, o);
      ExitReturns(q, w, m - 1, l.exits[i], l.results[i], o, o, frame);
      CallEnds(q, w, m, b, start, o, o);
    }
  }

  lemma KeptParams(z: Collapsed)
    requires z.Valid()
    ensures SameParams(z.p, z.q)
  {
    z.Unfold();
    forall b: BlockId | b < |z.p.blocks| ensures z.q.blocks[b].params == z.p.blocks[b].params {
      assert RewrittenTo(z.p, z.members, z.jumps, b, z.q.blocks[b]);
      assert CallFits(z.p, b);
    }
  }

  // ---------------------------------------------------------------- one step on either side

  /** The callee's own frame, as a call would start it. */
  function Entering(p: Program, w: World, b: BlockId, s: State): State {
    State(Frame(CalleeAt(p, b), ArgsAt(p, w, b, s)), Ran(p, w, b, s).trace)
  }

  /** The frame a jump goes on in, with the callee's parameters filled in. */
  function Landing(p: Program, w: World, b: BlockId, s: State): State {
    State(Pass(CalleeAt(p, b).params, ArgsAt(p, w, b, s), Ran(p, w, b, s).store), Ran(p, w, b, s).trace)
  }

  /** A tail call ends as its callee does. */
  lemma MemberEntered(z: Collapsed, w: World, n: nat, b: BlockId, s: State, o: Outcome)
    requires z.Valid() && b < |z.p.blocks| && b in z.jumps && Ends(z.p, w, n, b, s, o)
    ensures n > 0 && Ends(z.p, w, n - 1, CalleeAt(z.p, b).entry, Entering(z.p, w, b, s), o)
  {
    z.Unfold();
    assert CallsMember(z.p, z.members, b) && CallFits(z.p, b);
    TailEnters(z.p, w, n, b, s, o);
  }

  lemma MemberLeft(z: Collapsed, w: World, m: nat, b: BlockId, s: State, o: Outcome)
    requires z.Valid() && b < |z.p.blocks| && b in z.jumps && m > |z.p.blocks| && !Stuck(z.p, w, b, s)
    requires Ends(z.p, w, m, CalleeAt(z.p, b).entry, Entering(z.p, w, b, s), o)
    ensures Ends(z.p, w, m + 1, b, s, o)
  {
    z.Unfold();
    assert CallsMember(z.p, z.members, b) && CallFits(z.p, b);
    TailLeaves(z.p, w, m, b, s, o);
  }

  /** The jump it became goes to the callee's entry, and stays in the frame. */
  lemma JumpLands(z: Collapsed, w: World, b: BlockId, y: State)
    requires z.Valid() && b < |z.p.blocks| && b in z.jumps
    ensures !Calling(z.q, b) && Going(z.q, w, b, y) == To(CalleeAt(z.p, b).entry, Landing(z.p, w, b, y))
  {
    z.Unfold();
    assert RewrittenTo(z.p, z.members, z.jumps, b, z.q.blocks[b]);
    KeptParams(z);
    assert CallFits(z.p, b);
    var f := CalleeAt(z.p, b);
    assert f.entry < |z.p.blocks| && z.q.blocks[f.entry].params == z.p.blocks[f.entry].params == f.params;
  }

  /** Control gets past a block in the one program just when it does in the other. */
  lemma StuckAlike(z: Collapsed, w: World, b: BlockId, x: State, y: State)
    requires z.Valid() && b < |z.p.blocks| && Related(z.p, z.known, b, x, y)
    ensures Stuck(z.q, w, b, y) == Stuck(z.p, w, b, x)
  {
    z.Unfold();
    BlockAnsweredIs(w, z.p.blocks[b], x);
    BlockAnsweredIs(w, z.q.blocks[b], y);
    assert RewrittenTo(z.p, z.members, z.jumps, b, z.q.blocks[b]);
    ThroughBlock(z.p, w, z.known, b, x, y);
    if b in z.jumps {
      assert CallsMember(z.p, z.members, b);
      assert z.q.blocks[b].term.Operands() == z.p.blocks[b].term.Operands();
    }
  }

  /** The frame a tail call starts agrees, on the callee's parameters, with the frame it jumps on in. */
  lemma JumpRelates(z: Collapsed, w: World, b: BlockId, x: State, y: State)
    requires z.Valid() && b < |z.p.blocks| && b in z.jumps && Related(z.p, z.known, b, x, y)
    ensures CalleeAt(z.p, b).entry < |z.p.blocks|
    ensures Related(z.p, z.known, CalleeAt(z.p, b).entry, Entering(z.p, w, b, x), Landing(z.p, w, b, y))
  {
    z.Unfold();
    ThroughBlock(z.p, w, z.known, b, x, y);
    assert CallsMember(z.p, z.members, b) && CallFits(z.p, b);
    assert z.p.blocks[b].term.Operands() == SiteAt(z.p, b).args;
    var f := CalleeAt(z.p, b);
    PassFills(f.params, ArgsAt(z.p, w, b, y), map[], Ran(z.p, w, b, y).store, {});
    var i: nat :| i < |z.members| && z.members[i] == SiteAt(z.p, b).callee;
    assert z.known[f.entry] == {} && z.p.blocks[f.entry].params == f.params;
    assert Definitions.Params(f.params) == {} + Definitions.Params(f.params);
  }

  /** After a call that stays a call, the frames agree where it comes back to. */
  lemma CallAlike(z: Collapsed, w: World, b: BlockId, x: State, y: State)
    requires z.Valid() && b < |z.p.blocks| && b !in z.jumps && Calling(z.p, b) && Related(z.p, z.known, b, x, y)
    ensures SiteAt(z.q, b) == SiteAt(z.p, b) && SiteAt(z.p, b).callee < |z.p.functions|
    ensures ArgsAt(z.q, w, b, y) == ArgsAt(z.p, w, b, x) && Ran(z.q, w, b, y).trace == Ran(z.p, w, b, x).trace
  {
    CallRelates(z, w, b, x, y, Core.Outcome(Val.Unit, []));
  }

  lemma CallRelates(z: Collapsed, w: World, b: BlockId, x: State, y: State, o: Outcome)
    requires z.Valid() && b < |z.p.blocks| && b !in z.jumps && Calling(z.p, b) && Related(z.p, z.known, b, x, y)
    ensures z.q.blocks[b] == z.p.blocks[b] && SiteAt(z.q, b) == SiteAt(z.p, b)
    ensures SiteAt(z.p, b).callee < |z.p.functions| && SiteAt(z.p, b).target < |z.p.blocks|
    ensures ArgsAt(z.q, w, b, y) == ArgsAt(z.p, w, b, x) && Ran(z.q, w, b, y).trace == Ran(z.p, w, b, x).trace
    ensures Related(z.p, z.known, SiteAt(z.p, b).target, Received(z.p, w, b, x, o), Received(z.q, w, b, y, o))
  {
    z.Unfold();
    assert RewrittenTo(z.p, z.members, z.jumps, b, z.q.blocks[b]);
    ThroughBlock(z.p, w, z.known, b, x, y);
    KeptParams(z);
    var term, site := z.p.blocks[b].term, SiteAt(z.p, b);
    assert term.Operands() == site.args && CallFits(z.p, b) && KnowsAt(z.p, z.known, b);
    assert site.target in term.Successors();
    var vars := z.known[b] + Definitions.DefinitionsIn(z.p, b);
    var x1, y1 := Ran(z.p, w, b, x), Ran(z.p, w, b, y);
    match term
    case Call(_, _, r, target) => SameBind(x1.store, y1.store, vars, r, o.value);
    case GotoCall(target, _, _) =>
      assert z.q.blocks[target].params == z.p.blocks[target].params;
      PassFills(z.p.blocks[target].params, [o.value], x1.store, y1.store, vars);
  }

  lemma SameCallEnds(p: Program, q: Program, w: World, m: nat, b: BlockId, x: State, y: State, v: Outcome, o: Outcome)
    requires m > 0 && Calling(q, b) && !Stuck(q, w, b, y)
    requires SiteAt(q, b) == SiteAt(p, b) && ArgsAt(q, w, b, y) == ArgsAt(p, w, b, x)
      && Ran(q, w, b, y).trace == Ran(p, w, b, x).trace
    requires Gives(q, w, m - 1, SiteAt(p, b).callee, ArgsAt(p, w, b, x), Ran(p, w, b, x).trace, v)
    requires Ends(q, w, m - 1, SiteAt(p, b).target, Received(q, w, b, y, v), o)
    ensures Ends(q, w, m, b, y, o)
  {
    CallEnds(q, w, m, b, y, v, o);
  }

  lemma BeyondRelates(z: Collapsed, w: World, b: BlockId, x: State, y: State, o: Outcome)
    requires z.Valid() && b < |z.p.blocks| && b !in z.jumps && Calling(z.p, b) && Related(z.p, z.known, b, x, y)
    ensures SiteAt(z.p, b).target < |z.p.blocks|
    ensures Related(z.p, z.known, SiteAt(z.p, b).target, Received(z.p, w, b, x, o), Received(z.q, w, b, y, o))
  {
    CallRelates(z, w, b, x, y, o);
  }

  /** Where a block goes on without a call, it goes on alike. */
  lemma StepRelates(z: Collapsed, w: World, b: BlockId, x: State, y: State) returns (e: (Next, Next))
    requires z.Valid() && b < |z.p.blocks| && b !in z.jumps && Related(z.p, z.known, b, x, y)
    requires !Calling(z.p, b) && !Dead(z.p, b)
    ensures z.q.blocks[b] == z.p.blocks[b]
    ensures e == (Going(z.p, w, b, x), Going(z.q, w, b, y))
    ensures e.0.Leave? ==> e.1 == e.0
    ensures e.0.To? ==>
      && e.1.To? && e.1.target == e.0.target && e.0.target < |z.p.blocks|
      && Related(z.p, z.known, e.0.target, e.0.state, e.1.state)
  {
    z.Unfold();
    assert RewrittenTo(z.p, z.members, z.jumps, b, z.q.blocks[b]);
    ThroughBlock(z.p, w, z.known, b, x, y);
    KeptParams(z);
    assert KnowsAt(z.p, z.known, b);
    var x1, y1 := Ran(z.p, w, b, x), Ran(z.p, w, b, y);
    FollowAlike(z.p, z.q, w, b, x1, y1, z.known[b] + Definitions.DefinitionsIn(z.p, b));
    e := (Going(z.p, w, b, x), Going(z.q, w, b, y));
  }

  /** The same call, ended the same way. */
  /** A member starts alike in a frame of its own and in the dispatcher's. */
  lemma MemberStarts(z: Collapsed, w: World, i: nat, args: seq<Val>, t: Trace)
    requires z.Valid() && i < |z.members|
    ensures var f := z.p.functions[z.members[i]];
      f.entry < |z.p.blocks|
        && Related(z.p, z.known, f.entry, State(Frame(f, args), t),
          State(DispatchFrame(z.p, z.members, z.l.selector, w, i, args), t))
  {
    z.Unfold();
    DispatchFrameHolds(z.p, z.members, z.l.selector, w, i, args);
    var f := z.p.functions[z.members[i]];
    assert z.members[i] in z.members && z.p.blocks[f.entry].params == f.params;
    assert z.known[f.entry] + Definitions.Params(f.params) == Definitions.Params(f.params);
  }

  /** A function that is no member starts as it did. */
  lemma OtherStarts(z: Collapsed, f: FuncId, args: seq<Val>, t: Trace)
    requires z.Valid() && f < |z.p.functions| && f !in z.members
    ensures z.q.functions[f] == z.p.functions[f] && z.p.functions[f].entry < |z.p.blocks|
    ensures Related(z.p, z.known, z.p.functions[f].entry, State(Frame(z.p.functions[f], args), t),
      State(Frame(z.p.functions[f], args), t))
  {
    z.Unfold();
  }

  lemma StaysCalling(z: Collapsed, b: BlockId)
    requires z.Valid() && b < |z.p.blocks| && b !in z.jumps
    ensures Calling(z.q, b) == Calling(z.p, b)
  {
    z.Unfold();
    assert RewrittenTo(z.p, z.members, z.jumps, b, z.q.blocks[b]);
  }

  // ---------------------------------------------------------------- nothing is lost

  lemma {:induction false} Forward(z: Collapsed, w: World, n: nat, m: nat, b: BlockId, x: State, y: State, o: Outcome)
    requires z.Valid() && b < |z.p.blocks| && Related(z.p, z.known, b, x, y) && m >= 3 * n && Ends(z.p, w, n, b, x, o)
    ensures Ends(z.q, w, m, b, y, o)
    decreases n, 0
  {
    GetsOn(z.p, w, n, b, x, o);
    StuckAlike(z, w, b, x, y);
    if b in z.jumps {
      ForwardJump(z, w, n, m, b, x, y, o);
    } else if Calling(z.p, b) {
      ForwardCalling(z, w, n, m, b, x, y, o);
    } else {
      ForwardStep(z, w, n, m, b, x, y, o);
    }
  }

  lemma {:induction false} ForwardJump(z: Collapsed, w: World, n: nat, m: nat, b: BlockId, x: State, y: State,
      o: Outcome)
    requires z.Valid() && b < |z.p.blocks| && Related(z.p, z.known, b, x, y) && m >= 3 * n && n > 0
      && Ends(z.p, w, n, b, x, o)
    requires b in z.jumps && !Stuck(z.q, w, b, y)
    ensures Ends(z.q, w, m, b, y, o)
    decreases n - 1, 2
  {
    MemberEntered(z, w, n, b, x, o);
    JumpRelates(z, w, b, x, y);
    Forward(z, w, n - 1, m - 1, CalleeAt(z.p, b).entry, Entering(z.p, w, b, x), Landing(z.p, w, b, y), o);
    JumpLands(z, w, b, y);
    StepEnds(z.q, w, m, b, y, o);
  }

  lemma {:induction false} ForwardStep(z: Collapsed, w: World, n: nat, m: nat, b: BlockId, x: State, y: State,
      o: Outcome)
    requires z.Valid() && b < |z.p.blocks| && Related(z.p, z.known, b, x, y) && m >= 3 * n && n > 0
      && Ends(z.p, w, n, b, x, o)
    requires b !in z.jumps && !Calling(z.p, b) && !Stuck(z.p, w, b, x) && !Stuck(z.q, w, b, y)
    ensures Ends(z.q, w, m, b, y, o)
    decreases n - 1, 2
  {
    var e := StepRelates(z, w, b, x, y);
    StepEnds(z.p, w, n, b, x, o);
    if e.0.To? { Forward(z, w, n - 1, m - 1, e.0.target, e.0.state, e.1.state, o); }
    StepEnds(z.q, w, m, b, y, o);
  }

  lemma {:induction false} ForwardCalling(z: Collapsed, w: World, n: nat, m: nat, b: BlockId, x: State, y: State,
      o: Outcome)
    requires z.Valid() && b < |z.p.blocks| && Related(z.p, z.known, b, x, y) && m >= 3 * n && n > 0
      && Ends(z.p, w, n, b, x, o)
    requires b !in z.jumps && Calling(z.p, b) && !Stuck(z.q, w, b, y)
    ensures Ends(z.q, w, m, b, y, o)
    decreases n - 1, 5
  {
    var v := CallCameBack(z.p, w, n, b, x, o);
    CallAlike(z, w, b, x, y);
    BeyondRelates(z, w, b, x, y, v);
    ForwardOverCall(z, w, n - 1, m - 1, SiteAt(z.p, b).callee, ArgsAt(z.p, w, b, x), Ran(z.p, w, b, x).trace,
      SiteAt(z.p, b).target, Received(z.p, w, b, x, v), Received(z.q, w, b, y, v), v, o);
    StaysCalling(z, b);
    SameCallEnds(z.p, z.q, w, m, b, x, y, v, o);
  }

  /** A call that gave `v`, and what came after it, from frames that agree. */
  lemma {:induction false} ForwardOverCall(z: Collapsed, w: World, n: nat, m: nat, f: FuncId, args: seq<Val>,
      t: Trace, c: BlockId, x: State, y: State, v: Outcome, o: Outcome)
    requires z.Valid() && f < |z.p.functions| && m >= 3 * n + 2 && Gives(z.p, w, n, f, args, t, v)
    requires c < |z.p.blocks| && Related(z.p, z.known, c, x, y) && Ends(z.p, w, n, c, x, o)
    ensures Gives(z.q, w, m, f, args, t, v) && Ends(z.q, w, m, c, y, o)
    decreases n, 4
  {
    ForwardCall(z, w, n, m, f, args, t, v);
    Forward(z, w, n, m, c, x, y, o);
  }

  lemma {:induction false} ForwardCall(z: Collapsed, w: World, n: nat, m: nat, f: FuncId, args: seq<Val>, t: Trace,
      o: Outcome)
    requires z.Valid() && f < |z.p.functions| && m >= 3 * n + 2 && Gives(z.p, w, n, f, args, t, o)
    ensures Gives(z.q, w, m, f, args, t, o)
    decreases n, 2
  {
    if f in z.members {
      var i: nat :| i < |z.members| && z.members[i] == f;
      ForwardMember(z, w, n, m, i, args, t, o);
    } else {
      var start := State(Frame(z.p.functions[f], args), t);
      OtherStarts(z, f, args, t);
      Forward(z, w, n, m, z.p.functions[f].entry, start, start, o);
    }
  }

  lemma {:induction false} ForwardMember(z: Collapsed, w: World, n: nat, m: nat, i: nat, args: seq<Val>, t: Trace,
      o: Outcome)
    requires z.Valid() && i < |z.members| && m >= 3 * n + 2 && Gives(z.p, w, n, z.members[i], args, t, o)
    ensures Gives(z.q, w, m, z.members[i], args, t, o)
    decreases n, 1
  {
    var f := z.p.functions[z.members[i]];
    MemberStarts(z, w, i, args, t);
    Forward(z, w, n, m - 2, f.entry, State(Frame(f, args), t),
      State(DispatchFrame(z.p, z.members, z.l.selector, w, i, args), t), o);
    WrapperRuns(z, w, m, i, args, t, o);
  }

  // ---------------------------------------------------------------- nothing is made up

  /** Steps enough to forward any tail call's result. */
  function Slack(p: Program): nat { |p.blocks| + 2 }

  lemma {:induction false} Backward(z: Collapsed, w: World, n: nat, b: BlockId, x: State, y: State, o: Outcome)
    requires z.Valid() && b < |z.p.blocks| && Related(z.p, z.known, b, x, y) && Ends(z.q, w, n, b, y, o)
    ensures Ends(z.p, w, n + Slack(z.p), b, x, o)
    decreases n, 0
  {
    GetsOn(z.q, w, n, b, y, o);
    StuckAlike(z, w, b, x, y);
    if b in z.jumps {
      BackwardJump(z, w, n, b, x, y, o);
    } else if Calling(z.p, b) {
      BackwardCalling(z, w, n, b, x, y, o);
    } else {
      BackwardStep(z, w, n, b, x, y, o);
    }
  }

  /** A jump ends as the callee's entry does. */
  lemma JumpEnds(z: Collapsed, w: World, n: nat, b: BlockId, y: State, o: Outcome)
    requires z.Valid() && b < |z.p.blocks| && b in z.jumps && n > 0 && !Stuck(z.q, w, b, y)
    requires Ends(z.q, w, n, b, y, o)
    ensures Ends(z.q, w, n - 1, CalleeAt(z.p, b).entry, Landing(z.p, w, b, y), o)
  {
    JumpLands(z, w, b, y);
    StepEnds(z.q, w, n, b, y, o);
  }

  lemma {:induction false} BackwardJump(z: Collapsed, w: World, n: nat, b: BlockId, x: State, y: State, o: Outcome)
    requires z.Valid() && b < |z.p.blocks| && Related(z.p, z.known, b, x, y) && n > 0 && Ends(z.q, w, n, b, y, o)
    requires b in z.jumps && !Stuck(z.p, w, b, x) && !Stuck(z.q, w, b, y)
    ensures Ends(z.p, w, n + Slack(z.p), b, x, o)
    decreases n - 1, 2
  {
    JumpEnds(z, w, n, b, y, o);
    JumpRelates(z, w, b, x, y);
    Backward(z, w, n - 1, CalleeAt(z.p, b).entry, Entering(z.p, w, b, x), Landing(z.p, w, b, y), o);
    MemberLeft(z, w, n - 1 + Slack(z.p), b, x, o);
  }

  lemma {:induction false} BackwardStep(z: Collapsed, w: World, n: nat, b: BlockId, x: State, y: State, o: Outcome)
    requires z.Valid() && b < |z.p.blocks| && Related(z.p, z.known, b, x, y) && n > 0 && Ends(z.q, w, n, b, y, o)
    requires b !in z.jumps && !Calling(z.p, b) && !Stuck(z.p, w, b, x) && !Stuck(z.q, w, b, y)
    ensures Ends(z.p, w, n + Slack(z.p), b, x, o)
    decreases n - 1, 2
  {
    StaysCalling(z, b);
    var e := StepRelates(z, w, b, x, y);
    StepEnds(z.q, w, n, b, y, o);
    if e.0.To? { Backward(z, w, n - 1, e.0.target, e.0.state, e.1.state, o); }
    StepEnds(z.p, w, n + Slack(z.p), b, x, o);
  }

  lemma {:induction false} BackwardCalling(z: Collapsed, w: World, n: nat, b: BlockId, x: State, y: State, o: Outcome)
    requires z.Valid() && b < |z.p.blocks| && Related(z.p, z.known, b, x, y) && n > 0 && Ends(z.q, w, n, b, y, o)
    requires b !in z.jumps && Calling(z.p, b) && !Stuck(z.p, w, b, x)
    ensures Ends(z.p, w, n + Slack(z.p), b, x, o)
    decreases n - 1, 4
  {
    StaysCalling(z, b);
    var v := CallCameBack(z.q, w, n, b, y, o);
    CallAlike(z, w, b, x, y);
    BeyondRelates(z, w, b, x, y, v);
    BackwardOverCall(z, w, n - 1, SiteAt(z.p, b).callee, ArgsAt(z.p, w, b, x), Ran(z.p, w, b, x).trace,
      SiteAt(z.p, b).target, Received(z.p, w, b, x, v), Received(z.q, w, b, y, v), v, o);
    CallEnds(z.p, w, n + Slack(z.p), b, x, v, o);
  }

  lemma {:induction false} BackwardOverCall(z: Collapsed, w: World, n: nat, f: FuncId, args: seq<Val>, t: Trace,
      c: BlockId, x: State, y: State, v: Outcome, o: Outcome)
    requires z.Valid() && f < |z.p.functions| && Gives(z.q, w, n, f, args, t, v)
    requires c < |z.p.blocks| && Related(z.p, z.known, c, x, y) && Ends(z.q, w, n, c, y, o)
    ensures Gives(z.p, w, n + Slack(z.p), f, args, t, v) && Ends(z.p, w, n + Slack(z.p), c, x, o)
    decreases n, 3
  {
    BackwardCall(z, w, n, f, args, t, v);
    Backward(z, w, n, c, x, y, o);
  }

  lemma {:induction false} BackwardCall(z: Collapsed, w: World, n: nat, f: FuncId, args: seq<Val>, t: Trace, o: Outcome)
    requires z.Valid() && f < |z.p.functions| && Gives(z.q, w, n, f, args, t, o)
    ensures Gives(z.p, w, n + Slack(z.p), f, args, t, o)
    decreases n, 2
  {
    if f in z.members {
      var i: nat :| i < |z.members| && z.members[i] == f;
      BackwardMember(z, w, n, i, args, t, o);
    } else {
      var start := State(Frame(z.p.functions[f], args), t);
      OtherStarts(z, f, args, t);
      Backward(z, w, n, z.p.functions[f].entry, start, start, o);
    }
  }

  lemma {:induction false} BackwardMember(z: Collapsed, w: World, n: nat, i: nat, args: seq<Val>, t: Trace, o: Outcome)
    requires z.Valid() && i < |z.members| && Gives(z.q, w, n, z.members[i], args, t, o)
    ensures Gives(z.p, w, n + Slack(z.p), z.members[i], args, t, o)
    decreases n, 1
  {
    WrapperRuns(z, w, n, i, args, t, o);
    BackwardInside(z, w, n - 2, n + Slack(z.p), i, args, t, o);
  }

  lemma {:induction false} BackwardInside(z: Collapsed, w: World, n: nat, m: nat, i: nat, args: seq<Val>, t: Trace,
      o: Outcome)
    requires z.Valid() && i < |z.members| && m >= n + Slack(z.p)
    requires Ends(z.q, w, n, z.p.functions[z.members[i]].entry,
      State(DispatchFrame(z.p, z.members, z.l.selector, w, i, args), t), o)
    ensures Gives(z.p, w, m, z.members[i], args, t, o)
    decreases n, 1
  {
    var f := z.p.functions[z.members[i]];
    MemberStarts(z, w, i, args, t);
    Backward(z, w, n, f.entry, State(Frame(f, args), t),
      State(DispatchFrame(z.p, z.members, z.l.selector, w, i, args), t), o);
    GivesInMore(z.p, w, n + Slack(z.p), m, z.members[i], args, t, o);
  }

  /** Every function returns what it did, for every argument list, and shows the world the same;
      and where it did not return, it does not now. */
  lemma CollapseKeepsResults(z: Collapsed, w: World, f: FuncId, args: seq<Val>, t: Trace, o: Outcome)
    requires z.Valid() && f < |z.p.functions|
    ensures Returns(z.p, w, f, args, t, o) <==> Returns(z.q, w, f, args, t, o)
  {
    if n: nat :| Gives(z.p, w, n, f, args, t, o) { ForwardCall(z, w, n, 3 * n + 2, f, args, t, o); }
    if n: nat :| Gives(z.q, w, n, f, args, t, o) { BackwardCall(z, w, n, f, args, t, o); }
  }

  /** The same when each program runs the calls inside its expressions itself. */
  lemma CollapseKeepsResultsWithin(z: Collapsed, w: World, f: FuncId, args: seq<Val>, t: Trace, o: Outcome)
    requires z.Valid() && f < |z.p.functions|
    ensures PureCalls.ReturnsWithin(z.p, w, |z.p.functions|, f, args, t, o) <==>
      PureCalls.ReturnsWithin(z.q, w, |z.p.functions|, f, args, t, o)
  {
    forall u: World, g: FuncId, vs: seq<Val>, r: Trace, v: Outcome | g < |z.p.functions|
      ensures Returns(z.p, u, g, vs, r, v) <==> Returns(z.q, u, g, vs, r, v)
    {
      CollapseKeepsResults(z, u, g, vs, r, v);
    }
    PureCalls.EquivalentWithin(z.p, z.q, w, f, args, t, o);
  }

  // ---------------------------------------------------------------- one frame

  /** In the original, `n` blocks on control is at `c` in `u`, each tail call of a member on the way
      having started a frame of its own. */
  ghost predicate Chain(z: Collapsed, w: World, n: nat, b: BlockId, s: State, c: BlockId, u: State)
    decreases n
  {
    if n == 0 then b == c && s == u
    else if Stuck(z.p, w, b, s) then false
    else if b in z.jumps then Chain(z, w, n - 1, CalleeAt(z.p, b).entry, Entering(z.p, w, b, s), c, u)
    else if Calling(z.p, b) then
      exists v: Outcome {:trigger ComesBack(z.p, w, b, s, v)} ::
        ComesBack(z.p, w, b, s, v) && Chain(z, w, n - 1, SiteAt(z.p, b).target, Received(z.p, w, b, s, v), c, u)
    else
      Going(z.p, w, b, s).To? && Chain(z, w, n - 1, Going(z.p, w, b, s).target, Going(z.p, w, b, s).state, c, u)
  }

  /** However many members such a chain goes through, the collapsed program runs it in one frame. */
  lemma {:induction false} ChainStaysInFrame(z: Collapsed, w: World, n: nat, b: BlockId, x: State, y: State,
      c: BlockId, u: State) returns (v: State)
    requires z.Valid() && b < |z.p.blocks| && Related(z.p, z.known, b, x, y) && Chain(z, w, n, b, x, c, u)
    ensures Path(z.q, w, n, b, y, c, v) && c < |z.p.blocks| && Related(z.p, z.known, c, u, v)
    decreases n, 0
  {
    if n == 0 {
      v := y;
    } else if b in z.jumps {
      StuckAlike(z, w, b, x, y);
      JumpRelates(z, w, b, x, y);
      JumpLands(z, w, b, y);
      v := ChainStaysInFrame(z, w, n - 1, CalleeAt(z.p, b).entry, Entering(z.p, w, b, x), Landing(z.p, w, b, y), c, u);
    } else if Calling(z.p, b) {
      v := ChainOverCall(z, w, n, b, x, y, c, u);
    } else {
      StuckAlike(z, w, b, x, y);
      StaysCalling(z, b);
      var e := StepRelates(z, w, b, x, y);
      v := ChainStaysInFrame(z, w, n - 1, e.0.target, e.0.state, e.1.state, c, u);
    }
  }

  lemma {:induction false} ChainOverCall(z: Collapsed, w: World, n: nat, b: BlockId, x: State, y: State, c: BlockId,
      u: State) returns (v: State)
    requires z.Valid() && b < |z.p.blocks| && Related(z.p, z.known, b, x, y) && Chain(z, w, n, b, x, c, u) && n > 0
    requires b !in z.jumps && Calling(z.p, b)
    ensures Path(z.q, w, n, b, y, c, v) && c < |z.p.blocks| && Related(z.p, z.known, c, u, v)
    decreases n - 1, 2
  {
    StuckAlike(z, w, b, x, y);
    StaysCalling(z, b);
    var o :| ComesBack(z.p, w, b, x, o) && Chain(z, w, n - 1, SiteAt(z.p, b).target, Received(z.p, w, b, x, o), c, u);
    CallRelates(z, w, b, x, y, o);
    CollapseKeepsResults(z, w, SiteAt(z.p, b).callee, ArgsAt(z.p, w, b, x), Ran(z.p, w, b, x).trace, o);
    assert ComesBack(z.q, w, b, y, o);
    v := ChainStaysInFrame(z, w, n - 1, SiteAt(z.p, b).target, Received(z.p, w, b, x, o), Received(z.q, w, b, y, o), c,
      u);
  }
}
