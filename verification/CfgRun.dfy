/** Running block-form code whose jumps all go back to earlier blocks, as lowering builds it. */
module CfgRun {
  import opened Cfg
  import Core

  type Store = map<ValueId, Val>
  type World = Core.World
  type Trace = Core.Trace
  type Outcome = Core.Outcome

  function Load(store: Store, v: ValueId): Val { if v in store then store[v] else Unit }

  function ValueOf(w: World, e: Expr, store: Store): Val
    decreases e
  {
    match e
    case Value(v) => Load(store, v)
    case Literal(lit) => lit
    case Unary(op, operand) => w.unary(op, ValueOf(w, operand, store))
    case Binary(op, lhs, rhs) => w.binary(op, ValueOf(w, lhs, store), ValueOf(w, rhs, store))
    case Prim(op, args) => w.prim(op, ValuesOf(w, args, store))
    case PureCall(callee, args) =>
      var key := (callee, ValuesOf(w, args, store));
      if key in w.pure then w.pure[key] else Unit
  }

  function ValuesOf(w: World, es: seq<Expr>, store: Store): seq<Val>
    decreases es
  {
    seq(|es|, i requires 0 <= i < |es| => ValueOf(w, es[i], store))
  }

  datatype State = State(store: Store, trace: Trace)

  function Step(w: World, i: Instr, s: State): State {
    match i
    case Let(result, value) => s.(store := s.store[result := ValueOf(w, value, s.store)])
    case Eval(result, value) => s.(store := s.store[result := ValueOf(w, value, s.store)])
    case HandlerEnter(_, effect) => s.(trace := s.trace + [Core.HandlerOpened(effect)])
    case HandlerExit(_, effect) => s.(trace := s.trace + [Core.HandlerClosed(effect)])
    case StageEnter(stage) => s.(trace := s.trace + [Core.StageOpened(stage)])
    case StageExit(stage) => s.(trace := s.trace + [Core.StageClosed(stage)])
    case _ => s
  }

  function RunInstrs(w: World, instrs: seq<Instr>, s: State): State {
    if instrs == [] then s else Step(w, instrs[|instrs| - 1], RunInstrs(w, instrs[..|instrs| - 1], s))
  }

  /** Parameters take the values handed to them, up to the shorter of the two. */
  function Pass(params: seq<ValueId>, values: seq<Val>, store: Store): Store {
    Core.BindAll(store, params, values, Core.Paired(params, values))
  }

  predicate Back(block: Block, b: BlockId) {
    forall s :: s in block.term.Successors() ==> s < b
  }

  ghost predicate Descending(blocks: seq<Block>) {
    forall b: BlockId {:trigger Back(blocks[b], b)} :: b < |blocks| ==> Back(blocks[b], b)
  }

  function Selected(arms: seq<MatchArm>, tag: nat): Option<nat> { SelectedFrom(arms, tag, 0) }

  function SelectedFrom(arms: seq<MatchArm>, tag: nat, i: nat): (r: Option<nat>)
    requires i <= |arms|
    ensures r.Some? ==> i <= r.value < |arms| && arms[r.value].tag == tag
    ensures r.Some? ==> forall k :: i <= k < r.value ==> arms[k].tag != tag
    ensures r.None? ==> forall k :: i <= k < |arms| ==> arms[k].tag != tag
    decreases |arms| - i
  {
    if i == |arms| then None else if arms[i].tag == tag then Some(i) else SelectedFrom(arms, tag, i + 1)
  }

  /** Where control goes once a block has run: on to a block in a state, or out with an outcome. */
  datatype Next = Leave(outcome: Outcome) | To(target: BlockId, state: State)

  /** A call or perform binds its answer; a match binds the fields; a jump fills the parameters. */
  function Follow(w: World, blocks: seq<Block>, term: Terminator, s: State): (e: Next)
    ensures e.To? ==> e.target in term.Successors()
  {
    match term
    case Return(value) => Leave(Core.Outcome(ValueOf(w, value, s.store), s.trace))
    case Goto(target, args) =>
      To(target, if target < |blocks| then s.(store := Pass(blocks[target].params, ValuesOf(w, args, s.store), s.store))
        else s)
    case Branch(cond, thenTarget, elseTarget) =>
      To(if Core.IsTrue(ValueOf(w, cond, s.store)) then thenTarget else elseTarget, s)
    case Match(scrutinee, arms, default) =>
      var v := ValueOf(w, scrutinee, s.store);
      var i := if v.Ctor? then Selected(arms, v.tag) else None;
      if i.Some? then
        assert term.Successors()[i.value] == arms[i.value].target;
        To(arms[i.value].target, s.(store := Core.BindFields(s.store, arms[i.value].binders, v.fields)))
      else
        assert term.Successors()[|arms|] == default;
        To(default, s)
    case Switch(selector, targets, default) =>
      var v := ValueOf(w, selector, s.store);
      To(if v.Int? && 0 <= v.i < |targets| then targets[v.i] else default, s)
    case Call(callee, args, result, target) =>
      var event := Core.Called(callee, ValuesOf(w, args, s.store));
      To(target, State(s.store[result := w.answer(s.trace, event)], s.trace + [event]))
    case Perform(effect, operation, args, binding, target) =>
      var event := Core.Performed(effect, operation, ValuesOf(w, args, s.store));
      To(target, State(Core.BindOption(s.store, binding, w.answer(s.trace, event)), s.trace + [event]))
    case GotoCall(target, callee, args) =>
      var event := Core.Called(callee, ValuesOf(w, args, s.store));
      var v := w.answer(s.trace, event);
      To(target, State(if target < |blocks| then Pass(blocks[target].params, [v], s.store) else s.store,
        s.trace + [event]))
    case Unreachable => Leave(Core.Outcome(Unit, s.trace))
  }

  function After(w: World, blocks: seq<Block>, b: BlockId, s: State): Next
    requires b < |blocks|
  {
    Follow(w, blocks, blocks[b].term, RunInstrs(w, blocks[b].instrs, s))
  }

  ghost function RunBlock(w: World, blocks: seq<Block>, b: BlockId, s: State): Outcome
    requires Descending(blocks) && b < |blocks|
    decreases b
  {
    assert Back(blocks[b], b);
    var e := After(w, blocks, b, s);
    if e.Leave? then e.outcome else RunBlock(w, blocks, e.target, e.state)
  }

  /** What runs from a block is settled once the block is there. */
  lemma {:induction false} RunKept(w: World, before: seq<Block>, after: seq<Block>, b: BlockId, s: State)
    requires Descending(before) && Descending(after) && b < |before| && b < |after| && before[..b + 1] == after[..b + 1]
    ensures RunBlock(w, before, b, s) == RunBlock(w, after, b, s)
    decreases b
  {
    assert Back(before[b], b) && before[..b + 1][b] == after[..b + 1][b];
    var e := After(w, before, b, s);
    if e.To? {
      assert before[..b + 1][e.target] == after[..b + 1][e.target];
      assert After(w, after, b, s) == e;
      assert before[..e.target + 1] == before[..b + 1][..e.target + 1] == after[..e.target + 1];
      RunKept(w, before, after, e.target, e.state);
    }
  }

  lemma {:induction false} InstrsJoin(w: World, a: seq<Instr>, b: seq<Instr>, s: State)
    ensures RunInstrs(w, a + b, s) == RunInstrs(w, b, RunInstrs(w, a, s))
    decreases b
  {
    if b == [] {
      assert a + b == a;
    } else {
      InstrsJoin(w, a, b[..|b| - 1], s);
      assert (a + b)[..|a + b| - 1] == a + b[..|b| - 1];
    }
  }

  // ---------------------------------------------------------------- values allocated later

  /** What a position that only reads may hold: nothing that hands back a reference no value names. */
  predicate Borrowable(e: Expr) { !e.Prim? && !e.PureCall? }

  /** The expression reads only values numbered below `n`, and its operands may be borrowed. */
  predicate ExprBelow(e: Expr, n: ValueId)
    decreases e
  {
    match e
    case Value(v) => v < n
    case Literal(_) => true
    case Unary(_, operand) => Borrowable(operand) && ExprBelow(operand, n)
    case Binary(_, lhs, rhs) => Borrowable(lhs) && Borrowable(rhs) && ExprBelow(lhs, n) && ExprBelow(rhs, n)
    case Prim(_, args) => ExprsBelow(args, n)
    case PureCall(_, args) => ExprsBelow(args, n)
  }

  predicate ExprsBelow(es: seq<Expr>, n: ValueId)
    decreases es
  {
    forall i: nat :: i < |es| ==> ExprBelow(es[i], n)
  }

  predicate InstrBelow(i: Instr, n: ValueId) {
    match i
    case Let(result, value) => result < n && ExprBelow(value, n)
    case Eval(result, value) => result < n && ExprBelow(value, n)
    case _ => true
  }

  predicate InstrsBelow(instrs: seq<Instr>, n: ValueId) {
    forall k: nat {:trigger InstrBelow(instrs[k], n)} :: k < |instrs| ==> InstrBelow(instrs[k], n)
  }

  predicate ValuesBelow(vs: seq<ValueId>, n: ValueId) { forall v :: v in vs ==> v < n }

  predicate ArmBelow(arm: MatchArm, n: ValueId) { ValuesBelow(arm.binders, n) }

  predicate TermBelow(t: Terminator, n: ValueId) {
    match t
    case Return(value) => ExprBelow(value, n)
    case Goto(_, args) => ExprsBelow(args, n)
    case Branch(cond, _, _) => Borrowable(cond) && ExprBelow(cond, n)
    case Match(scrutinee, arms, _) =>
      && Borrowable(scrutinee) && ExprBelow(scrutinee, n)
      && forall k: nat {:trigger ArmBelow(arms[k], n)} :: k < |arms| ==> ArmBelow(arms[k], n)
    case Switch(selector, _, _) => Borrowable(selector) && ExprBelow(selector, n)
    case Call(_, args, result, _) => ExprsBelow(args, n) && result < n
    case Perform(_, _, args, binding, _) => ExprsBelow(args, n) && (binding.Some? ==> binding.value < n)
    case GotoCall(_, _, args) => ExprsBelow(args, n)
    case Unreachable => true
  }

  /** The block reads and writes only values numbered below `n`, and borrows no result that has no name. */
  predicate BlockBelow(b: Block, n: ValueId) {
    ValuesBelow(b.params, n) && InstrsBelow(b.instrs, n) && TermBelow(b.term, n)
  }

  ghost predicate SameBelow(a: Store, b: Store, n: ValueId) {
    forall v: ValueId :: v < n ==> Load(a, v) == Load(b, v)
  }

  lemma SameUpdate(a: Store, b: Store, n: ValueId, x: ValueId, v: Val)
    requires SameBelow(a, b, n)
    ensures SameBelow(a[x := v], b[x := v], n)
  {
    var a1, b1 := a[x := v], b[x := v];
    forall y: ValueId | y < n ensures Load(a1, y) == Load(b1, y) {
      assert Load(a, y) == Load(b, y);
    }
  }

  lemma {:induction false} ValueSame(w: World, e: Expr, a: Store, b: Store, n: ValueId)
    requires ExprBelow(e, n) && SameBelow(a, b, n)
    ensures ValueOf(w, e, a) == ValueOf(w, e, b)
    decreases e
  {
    match e
    case Unary(_, operand) => ValueSame(w, operand, a, b, n);
    case Binary(_, lhs, rhs) => ValueSame(w, lhs, a, b, n); ValueSame(w, rhs, a, b, n);
    case Prim(_, args) => ValuesSame(w, args, a, b, n);
    case PureCall(_, args) => ValuesSame(w, args, a, b, n);
    case _ =>
  }

  lemma {:induction false} ValuesSame(w: World, es: seq<Expr>, a: Store, b: Store, n: ValueId)
    requires ExprsBelow(es, n) && SameBelow(a, b, n)
    ensures ValuesOf(w, es, a) == ValuesOf(w, es, b)
    decreases es
  {
    forall i: nat | i < |es| ensures ValueOf(w, es[i], a) == ValueOf(w, es[i], b) {
      ValueSame(w, es[i], a, b, n);
    }
  }

  lemma {:induction false} InstrsSame(w: World, instrs: seq<Instr>, a: State, b: State, n: ValueId)
    requires InstrsBelow(instrs, n) && SameBelow(a.store, b.store, n) && a.trace == b.trace
    ensures SameBelow(RunInstrs(w, instrs, a).store, RunInstrs(w, instrs, b).store, n)
    ensures RunInstrs(w, instrs, a).trace == RunInstrs(w, instrs, b).trace
  {
    if instrs != [] {
      var rest, last := instrs[..|instrs| - 1], instrs[|instrs| - 1];
      forall k: nat | k < |rest| ensures InstrBelow(rest[k], n) { assert InstrBelow(instrs[k], n); }
      InstrsSame(w, rest, a, b, n);
      assert InstrBelow(last, n);
      match last
      case Let(result, value) =>
        ValueSame(w, value, RunInstrs(w, rest, a).store, RunInstrs(w, rest, b).store, n);
        SameUpdate(RunInstrs(w, rest, a).store, RunInstrs(w, rest, b).store, n, result,
          ValueOf(w, value, RunInstrs(w, rest, a).store));
      case Eval(result, value) =>
        ValueSame(w, value, RunInstrs(w, rest, a).store, RunInstrs(w, rest, b).store, n);
        SameUpdate(RunInstrs(w, rest, a).store, RunInstrs(w, rest, b).store, n, result,
          ValueOf(w, value, RunInstrs(w, rest, a).store));
      case _ =>
    }
  }

  lemma {:induction false} BindAllSame(params: seq<ValueId>, values: seq<Val>, k: nat, a: Store, b: Store, n: ValueId)
    requires k <= Core.Paired(params, values) && SameBelow(a, b, n)
    ensures SameBelow(Core.BindAll(a, params, values, k), Core.BindAll(b, params, values, k), n)
  {
    if k > 0 {
      BindAllSame(params, values, k - 1, a, b, n);
      SameUpdate(Core.BindAll(a, params, values, k - 1), Core.BindAll(b, params, values, k - 1), n, params[k - 1],
        values[k - 1]);
    }
  }

  ghost predicate SameExit(a: Next, b: Next, n: ValueId) {
    if a.Leave? then a == b
    else b.To? && a.target == b.target && a.state.trace == b.state.trace && SameBelow(a.state.store, b.state.store, n)
  }

  lemma FollowSame(w: World, blocks: seq<Block>, term: Terminator, a: State, b: State, n: ValueId)
    requires TermBelow(term, n) && SameBelow(a.store, b.store, n) && a.trace == b.trace
    ensures SameExit(Follow(w, blocks, term, a), Follow(w, blocks, term, b), n)
  {
    match term
    case Return(value) => ValueSame(w, value, a.store, b.store, n);
    case Goto(target, args) =>
      ValuesSame(w, args, a.store, b.store, n);
      if target < |blocks| {
        var values := ValuesOf(w, args, a.store);
        BindAllSame(blocks[target].params, values, Core.Paired(blocks[target].params, values), a.store, b.store, n);
      }
    case Branch(cond, _, _) => ValueSame(w, cond, a.store, b.store, n);
    case Match(scrutinee, arms, _) =>
      ValueSame(w, scrutinee, a.store, b.store, n);
      var v := ValueOf(w, scrutinee, a.store);
      if v.Ctor? && Selected(arms, v.tag).Some? {
        var binders := arms[Selected(arms, v.tag).value].binders;
        BindAllSame(binders, Core.Padded(v.fields, |binders|), |binders|, a.store, b.store, n);
      }
    case Switch(selector, _, _) => ValueSame(w, selector, a.store, b.store, n);
    case Call(callee, args, result, _) =>
      ValuesSame(w, args, a.store, b.store, n);
      SameUpdate(a.store, b.store, n, result, w.answer(a.trace, Core.Called(callee, ValuesOf(w, args, a.store))));
    case Perform(effect, operation, args, binding, _) =>
      ValuesSame(w, args, a.store, b.store, n);
      if binding.Some? {
        SameUpdate(a.store, b.store, n, binding.value,
          w.answer(a.trace, Core.Performed(effect, operation, ValuesOf(w, args, a.store))));
      }
    case GotoCall(target, callee, args) =>
      ValuesSame(w, args, a.store, b.store, n);
      if target < |blocks| {
        var values := [w.answer(a.trace, Core.Called(callee, ValuesOf(w, args, a.store)))];
        BindAllSame(blocks[target].params, values, Core.Paired(blocks[target].params, values), a.store, b.store, n);
      }
    case Unreachable =>
  }

  /** Values are numbered in the order they are made: a block and all that follows it stay below
      the block's own ceiling. */
  ghost predicate Ceilinged(blocks: seq<Block>, ceilings: seq<ValueId>) {
    && |ceilings| == |blocks|
    && (forall b: BlockId {:trigger blocks[b]} :: b < |blocks| ==> BlockBelow(blocks[b], ceilings[b]))
    && (forall a: BlockId, b: BlockId :: a < b < |ceilings| ==> ceilings[a] <= ceilings[b])
  }

  lemma {:induction false} RunSame(w: World, blocks: seq<Block>, ceilings: seq<ValueId>, t: BlockId, a: State, b: State)
    requires Descending(blocks) && Ceilinged(blocks, ceilings) && t < |blocks|
    requires SameBelow(a.store, b.store, ceilings[t]) && a.trace == b.trace
    ensures RunBlock(w, blocks, t, a) == RunBlock(w, blocks, t, b)
    decreases t
  {
    assert Back(blocks[t], t);
    var n := ceilings[t];
    InstrsSame(w, blocks[t].instrs, a, b, n);
    FollowSame(w, blocks, blocks[t].term, RunInstrs(w, blocks[t].instrs, a), RunInstrs(w, blocks[t].instrs, b), n);
    var ea, eb := After(w, blocks, t, a), After(w, blocks, t, b);
    if ea.To? {
      assert SameBelow(ea.state.store, eb.state.store, ceilings[ea.target]);
      RunSame(w, blocks, ceilings, ea.target, ea.state, eb.state);
    }
  }
}
